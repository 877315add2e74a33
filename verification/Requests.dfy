/** How a request for a playback URL is dispatched: net/http's path cleaning and the proxy handler
    of the control plane and of the node. */
module Requests {
  import opened Text
  import opened UrlEncoding
  import opened Signers
  import opened Decimal

  datatype Handler =
    | Playlist(slug: string, query: string)
    | Asset(slug: string, query: string)
    | Segment(slug: string, name: string, query: string)
    | Moved // the mux redirects to the cleaned path
    | Rejected

  /** path.Clean would leave the path as it is, but for a trailing slash. */
  predicate Clean(segments: seq<string>) {
    && (forall i | 1 <= i < |segments| :: segments[i] != "." && segments[i] != "..")
    && (forall i | 1 <= i < |segments| - 1 :: segments[i] != "")
  }

  /** The mux and the proxy handler, given the decoded path cut at its slashes. */
  function Route(segments: seq<string>, query: string): Handler {
    if |segments| < 3 || segments[0] != "" || segments[1] != "proxy" then Rejected
    else if !Clean(segments) then Moved
    else
      var slug, parts := segments[2], segments[3..];
      if |parts| == 0 || slug == "" then Rejected
      else if parts[0] == "index.m3u8" then Playlist(slug, query)
      else if parts[0] == "asset" then Asset(slug, query)
      else if parts[0] == "segment" && |parts| == 2 && parts[1] != "" then Segment(slug, parts[1], query)
      else Rejected
  }

  /** Exactly these paths reach the handlers: nothing may follow a segment's name, and what follows the other
      two words does not count. */
  lemma RouteReaches(segments: seq<string>, query: string, slug: string, name: string)
    ensures Route(segments, query) == Segment(slug, name, query)
            <==> segments == ["", "proxy", slug, "segment", name]
                 && slug !in {"", ".", ".."} && name !in {"", ".", ".."}
    ensures var there := && |segments| >= 4 && segments[0] == "" && segments[1] == "proxy" && segments[2] == slug
                         && (forall i | 2 <= i < |segments| :: segments[i] != "." && segments[i] != "..")
                         && (forall i | 2 <= i < |segments| - 1 :: segments[i] != "");
            && (Route(segments, query) == Asset(slug, query) <==> there && segments[3] == "asset")
            && (Route(segments, query) == Playlist(slug, query) <==> there && segments[3] == "index.m3u8")
  {
    if |segments| >= 4 && segments[1] == "proxy" {
      assert segments[3..][0] == segments[3];
    }
  }

  function Dispatch(target: string): Handler {
    var (rawPath, query) := Cut(target, '?');
    var path := Unescape(rawPath, PathSegment);
    if path.None? then Rejected else Route(Split(path.value, '/'), query)
  }

  /** The slugs whose URLs come back to the handler. */
  predicate Servable(slug: string) {
    slug != "" && slug != "." && slug != ".." && '/' !in slug
  }

  // ---------------------------------------------------------------- dispatching a slug's own URLs

  function ChannelUrl(slug: string, tail: string): string {
    "/proxy/" + Escape(slug, PathSegment) + "/" + tail
  }

  lemma UnescapeChannelPath(slug: string, tail: string)
    requires IsBytes(slug) && '%' !in tail && '+' !in tail
    ensures Unescape(ChannelUrl(slug, tail), PathSegment) == Some("/proxy/" + slug + "/" + tail)
  {
    var rest := "/" + tail;
    assert ChannelUrl(slug, tail) == "/proxy/" + (Escape(slug, PathSegment) + rest);
    UnescapePlain("/proxy/", PathSegment, Escape(slug, PathSegment) + rest);
    UnescapeEscape(slug, PathSegment, rest);
    UnescapePlain(rest, PathSegment, "");
    assert rest + "" == rest;
    assert "/proxy/" + (slug + rest) == "/proxy/" + slug + "/" + tail;
  }

  lemma ChannelUrlHasNoQuery(slug: string, tail: string, c: char)
    requires c !in tail && !UrlChar(c) && c != '/'
    ensures c !in ChannelUrl(slug, tail)
  {
    var e := Escape(slug, PathSegment);
    EscapeIsUrlText(slug, PathSegment);
    assert c !in e;
    assert forall x | x in "/proxy/" :: UrlChar(x) || x == '/';
  }

  lemma DispatchChannelUrl(slug: string, tail: string, query: string)
    requires IsBytes(slug) && '%' !in tail && '+' !in tail && '?' !in tail
    ensures Dispatch(ChannelUrl(slug, tail) + "?" + query) == Route(Split("/proxy/" + slug + "/" + tail, '/'), query)
  {
    UnescapeChannelPath(slug, tail);
    ChannelUrlHasNoQuery(slug, tail, '?');
    CutHead(ChannelUrl(slug, tail), '?', query);
  }

  lemma {:induction false} SplitTwice(a: string, b: string, tail: string, sep: char)
    requires sep !in a
    ensures Split([sep] + a + [sep] + b + [sep] + tail, sep) == ["", a] + Split(b + [sep] + tail, sep)
  {
    var rest := b + [sep] + tail;
    var whole := a + [sep] + rest;
    assert [sep] + a + [sep] + b + [sep] + tail == "" + [sep] + whole;
    SplitHead("", sep, whole);
    SplitHead(a, sep, rest);
  }

  lemma SplitChannelPrefix(slug: string, tail: string)
    ensures Split("/proxy/" + slug + "/" + tail, '/') == ["", "proxy"] + Split(slug + "/" + tail, '/')
  {
    SplitTwice("proxy", slug, tail, '/');
    assert "/proxy/" + slug + "/" + tail == ['/'] + "proxy" + ['/'] + slug + ['/'] + tail;
  }

  lemma SplitChannelPath(slug: string, tail: string)
    requires '/' !in slug
    ensures Split("/proxy/" + slug + "/" + tail, '/') == ["", "proxy", slug] + Split(tail, '/')
  {
    SplitChannelPrefix(slug, tail);
    SplitHead(slug, '/', tail);
  }

  lemma RouteKeepsSlug(segments: seq<string>, query: string)
    requires |segments| >= 3 && segments[0] == "" && segments[1] == "proxy"
    ensures Route(segments, query).Asset? ==> Route(segments, query).slug == segments[2]
  {
  }

  lemma OneSegment(slug: string, name: string, query: string)
    requires name != "" && name != "." && name != ".."
    requires slug != "" && slug != "." && slug != ".." ==> '/' !in slug
    ensures var segments := ["", "proxy", slug, name];
            Clean(segments) <==> slug != "" && slug != "." && slug != ".."
  {
    var segments := ["", "proxy", slug, name];
    assert segments[2] == slug && segments[1] == "proxy" && segments[3] == name;
  }

  lemma SlashedSlug(slug: string, query: string)
    requires '/' in slug
    ensures Route(Split("/proxy/" + slug + "/" + "asset", '/'), query) != Asset(slug, query)
  {
    var parts := Split(slug + "/" + "asset", '/');
    SplitChannelPrefix(slug, "asset");
    SplitIsFree(slug + "/" + "asset", '/');
    RouteKeepsSlug(["", "proxy"] + parts, query);
    assert (["", "proxy"] + parts)[2] == parts[0] != slug;
  }

  lemma PlainSlug(slug: string, query: string)
    requires '/' !in slug
    ensures Route(Split("/proxy/" + slug + "/" + "asset", '/'), query) == Asset(slug, query) <==> Servable(slug)
  {
    var segments := ["", "proxy", slug, "asset"];
    SplitSegmentPath(slug, "", "asset");
    OneSegment(slug, "asset", query);
    assert segments[3..] == ["asset"];
  }

  /** A channel's asset URLs reach the asset handler with the channel's slug exactly when the slug
      is servable; path escaping alone does not protect a slug that contains a slash. */
  lemma AssetDispatch(slug: string, query: string)
    requires IsBytes(slug)
    ensures Dispatch(ChannelUrl(slug, "asset") + "?" + query) == Asset(slug, query) <==> Servable(slug)
  {
    DispatchChannelUrl(slug, "asset", query);
    if '/' in slug {
      SlashedSlug(slug, query);
    } else {
      PlainSlug(slug, query);
    }
  }

  lemma RouteSegment(slug: string, name: string, query: string)
    requires Servable(slug) && Servable(name)
    ensures Route(["", "proxy", slug, "segment", name], query) == Segment(slug, name, query)
  {
  }

  lemma RoutePlaylist(slug: string, query: string)
    requires Servable(slug)
    ensures Route(["", "proxy", slug, "index.m3u8"], query) == Playlist(slug, query)
  {
  }

  lemma SplitSegmentPath(slug: string, word: string, name: string)
    requires '/' !in slug && '/' !in word && '/' !in name
    ensures Split("/proxy/" + slug + "/" + (word + "/" + name), '/') == ["", "proxy", slug, word, name]
    ensures Split("/proxy/" + slug + "/" + name, '/') == ["", "proxy", slug, name]
  {
    SplitChannelPath(slug, word + "/" + name);
    SplitChannelPath(slug, name);
    SplitHead(word, '/', name);
    SplitHead(name, '/', "");
  }

  lemma SegmentDispatch(slug: string, name: string, query: string)
    requires IsBytes(slug) && Servable(slug) && Servable(name)
    requires '%' !in name && '+' !in name && '?' !in name
    ensures Dispatch(ChannelUrl(slug, "segment/" + name) + "?" + query) == Segment(slug, name, query)
  {
    DispatchChannelUrl(slug, "segment/" + name, query);
    SplitSegmentPath(slug, "segment", name);
    assert "segment/" + name == "segment" + "/" + name;
    RouteSegment(slug, name, query);
  }

  lemma PlaylistDispatch(slug: string, query: string)
    requires IsBytes(slug) && Servable(slug)
    ensures Dispatch(ChannelUrl(slug, "index.m3u8") + "?" + query) == Playlist(slug, query)
  {
    DispatchChannelUrl(slug, "index.m3u8", query);
    SplitSegmentPath(slug, "", "index.m3u8");
    RoutePlaylist(slug, query);
  }

  // ---------------------------------------------------------------- asset URLs

  /** The second result of RegisterAsset when no R2 client is configured. */
  function AssetUrl(slug: string, ref: string, sig: string): string {
    ChannelUrl(slug, "asset") + "?" + (Pair("ref", ref) + "&" + Pair("sig", sig))
  }

  /** The characters of a signed link. */
  predicate LinkChar(c: char) {
    UrlChar(c) || c == '/' || c == '?'
  }

  ghost predicate LinkText(s: string) {
    forall i | 0 <= i < |s| :: LinkChar(s[i])
  }

  lemma HexIsLinkText(s: string)
    requires IsHex64(s)
    ensures LinkText(s)
  {
  }

  lemma ChannelUrlText(slug: string)
    ensures LinkText(ChannelUrl(slug, "asset"))
  {
    EscapeIsUrlText(slug, PathSegment);
    var e := Escape(slug, PathSegment);
    assert LinkText(e);
    assert LinkText("/proxy/") && LinkText("/") && LinkText("asset");
  }

  lemma AssetUrlCharacters(slug: string, ref: string, sig: string)
    requires IsHex64(ref) && IsHex64(sig)
    ensures AssetUrl(slug, ref, sig) != "" && AssetUrl(slug, ref, sig)[0] == '/' && '?' in AssetUrl(slug, ref, sig)
    ensures LinkText(AssetUrl(slug, ref, sig))
  {
    ChannelUrlText(slug);
    HexIsLinkText(ref);
    HexIsLinkText(sig);
    assert LinkText("ref" + "=") && LinkText("sig" + "=") && LinkText("&") && LinkText("?");
    var u := AssetUrl(slug, ref, sig);
    assert u[|ChannelUrl(slug, "asset")|] == '?';
  }

  lemma HexIsPlain(s: string)
    requires IsHex64(s)
    ensures Plain(s) && s != ""
  {
  }
}

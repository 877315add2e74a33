/** From a source playlist to the request that a player makes for one of its links. */
module PlaybackChain {
  import opened Text
  import opened Decimal
  import opened UriAttributes
  import opened UrlEncoding
  import opened Links
  import opened Signers
  import opened Requests
  import opened Tokens
  import opened Rewriter

  /** The source URL that the asset handler would fetch for a request, "" when it refuses. */
  function ServeAsset(signer: Signer, assets: Assets, target: string): string {
    match Dispatch(target)
    case Asset(slug, query) =>
      var ref, sig := QueryGet(query, "ref"), QueryGet(query, "sig");
      if ref == "" || sig == "" || !signer.Verify(ref, sig) then "" else AssetSource(assets, slug, ref)
    case _ => ""
  }

  // ---------------------------------------------------------------- signed links

  lemma UrlTextIsLink(u: string)
    requires u != "" && u[0] == '/'
    requires LinkText(u)
    ensures IsUri(u) && Trimmed(u) && Quotable(u) && '\n' !in u
  {
    assert LinkChar(u[0]) && LinkChar(u[|u| - 1]);
    TrimSpaceTrims(u);
  }

  lemma SignedUrlIsLink(signer: Signer, slug: string, url: string)
    requires signer.Valid()
    ensures var u := SignedUrl(signer, slug, url);
            IsUri(u) && Trimmed(u) && Quotable(u) && '\n' !in u && '?' in u
  {
    var ref := signer.Ref(url);
    assert IsHex64(signer.hash(url)) && IsHex64(signer.mac(ref));
    AssetUrlCharacters(slug, ref, signer.Sign(ref));
    UrlTextIsLink(SignedUrl(signer, slug, url));
  }

  lemma LinkerKeepsLinks(signer: Signer, urls: UrlLibrary, base: string, slug: string)
    requires signer.Valid()
    ensures Requotable(Linker(signer, urls, base, slug)) && UriToUri(Linker(signer, urls, base, slug))
  {
    forall x
      ensures var u := Linker(signer, urls, base, slug)(x); Quotable(u) && IsUri(u) && Trimmed(u)
    {
      SignedUrlIsLink(signer, slug, urls.resolve(base, x));
    }
  }

  lemma AppendedAssetUrl(slug: string, ref: string, sig: string, more: string)
    ensures AssetUrl(slug, ref, sig) + "&" + more
            == ChannelUrl(slug, "asset") + "?" + (Pair("ref", ref) + "&" + (Pair("sig", sig) + "&" + more))
  {
  }

  /** An asset request whose query starts with a valid reference and signature is served from the
      registration of that reference; the rest of the query does not matter. */
  lemma {:induction false} ServeQuery(signer: Signer, assets: Assets, slug: string, ref: string, query: string)
    requires signer.Valid() && IsBytes(slug) && Servable(slug) && IsHex64(ref)
    requires QueryGet(query, "ref") == ref && QueryGet(query, "sig") == signer.Sign(ref)
    ensures ServeAsset(signer, assets, ChannelUrl(slug, "asset") + "?" + query) == AssetSource(assets, slug, ref)
  {
    assert IsHex64(signer.mac(ref));
    AssetDispatch(slug, query);
  }

  /** Nothing else is served: a request that yields a source URL is for an asset of some slug, carries the
      signature of its reference, and that reference is registered for that very slug. */
  lemma OnlySignedIsServed(signer: Signer, assets: Assets, target: string)
    requires ServeAsset(signer, assets, target) != ""
    ensures var request := Dispatch(target);
            && request.Asset?
            && QueryGet(request.query, "sig") == signer.mac(QueryGet(request.query, "ref"))
            && request.slug in assets && QueryGet(request.query, "ref") in assets[request.slug]
            && ServeAsset(signer, assets, target) == assets[request.slug][QueryGet(request.query, "ref")]
  {
  }

  /** A signed link, with or without a token behind it, is served from its own registration. */
  lemma {:induction false} ServeSignedUrl(signer: Signer, assets: Assets, slug: string, url: string, exp: int,
                                          sig: string)
    requires signer.Valid() && IsBytes(slug) && Servable(slug)
    ensures ServeAsset(signer, assets, SignedUrl(signer, slug, url)) == AssetSource(assets, slug, signer.Ref(url))
    ensures ServeAsset(signer, assets, Appender(exp, sig)(SignedUrl(signer, slug, url)))
            == AssetSource(assets, slug, signer.Ref(url))
  {
    var ref, more := signer.Ref(url), TokenQuery(exp, sig);
    var s := signer.Sign(ref);
    assert IsHex64(signer.hash(url)) && IsHex64(signer.mac(ref));
    HexIsPlain(ref);
    HexIsPlain(s);
    UnescapeOfPlain(s);
    TwoPairs("ref", ref, "sig", s, s, more);
    ServeQuery(signer, assets, slug, ref, Pair("ref", ref) + "&" + Pair("sig", s));
    ServeQuery(signer, assets, slug, ref, Pair("ref", ref) + "&" + (Pair("sig", s) + "&" + more));
    SignedUrlIsLink(signer, slug, url);
    AppendedAssetUrl(slug, ref, s, more);
  }

  // ---------------------------------------------------------------- the rewritten text

  lemma TrimmedWithEnd(lines: seq<string>, f: string -> string)
    ensures MapLines(TrimLines(lines + [""]), f) == MapLines(TrimLines(lines), f) + [""]
  {
    assert TrimSpace("") == "";
    assert TrimLines(lines + [""]) == TrimLines(lines) + [""];
    MapLinesBlankEnd(TrimLines(lines), f);
  }

  lemma RewrittenLinesAreFree(signer: Signer, urls: UrlLibrary, base: string, slug: string, lines: seq<string>)
    requires signer.Valid() && Free(lines, '\n')
    ensures Free(MapLines(TrimLines(lines), Linker(signer, urls, base, slug)), '\n')
  {
    var f := Linker(signer, urls, base, slug);
    forall i | 0 <= i < |lines|
      ensures '\n' !in MapLine(TrimSpace(lines[i]), f)
    {
      TrimSpaceKeepsOut(lines[i], '\n');
      forall x
        ensures '\n' !in f(x)
      {
        SignedUrlIsLink(signer, slug, urls.resolve(base, x));
      }
      ReplaceAllKeepsOut(TrimSpace(lines[i]), f, '\n');
    }
  }

  lemma TrimmedLinesAreTrimmed(lines: seq<string>)
    ensures UrisTrimmed(TrimLines(lines))
  {
    forall i | 0 <= i < |lines|
      ensures Trimmed(TrimLines(lines)[i])
    {
      TrimSpaceTrims(lines[i]);
    }
  }

  /** Line by line the rewritten text is the source, trimmed, with its links replaced; its links are the
      signed links of the source's links, each in its place. */
  lemma {:induction false} RewrittenLines(signer: Signer, urls: UrlLibrary, base: string, slug: string, source: string)
    requires signer.Valid()
    ensures var lines, f := TrimLines(Split(Terminated(source), '\n')), Linker(signer, urls, base, slug);
            var text := RewriteText(signer, urls, base, slug, ScanLines(source));
            && Split(text, '\n') == MapLines(lines, f)
            && UrisTrimmed(lines)
            && UrisTrimmed(Split(text, '\n'))
            && PlaylistLinks(text) == MapAll(f, PlaylistLinks(source))
  {
    var read, f := ScanLines(source), Linker(signer, urls, base, slug);
    SplitIsFree(source, '\n');
    assert Free(read, '\n');
    LinkerKeepsLinks(signer, urls, base, slug);
    RewrittenLinesAreFree(signer, urls, base, slug, read);
    SplitUnlines(MapLines(TrimLines(read), f));
    ScanLinesIsWhole(source);
    TrimmedWithEnd(read, f);
    TrimmedLinesAreTrimmed(read + [""]);
    MapLinesLinks(TrimLines(read + [""]), f);
    LinksOfTrimmedLines(read + [""]);
    LinksWithBlankEnd(read);
    SourceLinksAreLinks(source);
    LinksOfTrimmedLines(read);
  }

  /** The served text, line by line: outside the links it is the source, and each link is the
      token pass applied to the signed link.  Neither pass creates, loses or moves a link. */
  lemma {:induction false} ServedLines(signer: Signer, urls: UrlLibrary, base: string, slug: string, source: string,
                                       exp: int, sig: string)
    requires signer.Valid() && exp != 0 && sig != ""
    ensures var lines, f := TrimLines(Split(Terminated(source), '\n')), Linker(signer, urls, base, slug);
            Split(TokenPass(RewriteText(signer, urls, base, slug, ScanLines(source)), exp, sig), '\n')
            == MapLines(lines, x => Appender(exp, sig)(f(x)))
  {
    var lines, f, g := TrimLines(Split(Terminated(source), '\n')), Linker(signer, urls, base, slug), Appender(exp, sig);
    var text := RewriteText(signer, urls, base, slug, ScanLines(source));
    RewrittenLines(signer, urls, base, slug, source);
    LinkerKeepsLinks(signer, urls, base, slug);
    MapLinesTwice(lines, f, g);
    TokenPassLines(text, exp, sig);
  }

  // ---------------------------------------------------------------- the registry

  ghost predicate CollisionFree(signer: Signer, urls: seq<string>) {
    forall i, j | 0 <= i < |urls| && 0 <= j < |urls| && signer.Ref(urls[i]) == signer.Ref(urls[j]) :: urls[i] == urls[j]
  }

  /** Registering further URLs never removes a reference, and leaves its URL alone unless one of
      them collides with it. */
  lemma {:induction false} ReferenceStays(signer: Signer, assets: Assets, slug: string, slug': string,
                                          urls: seq<string>, ref: string)
    requires ref in Bucket(assets, slug)
    ensures ref in Bucket(RegisterAll(signer, assets, slug', urls), slug)
    ensures var now := AssetSource(RegisterAll(signer, assets, slug', urls), slug, ref);
            now == AssetSource(assets, slug, ref) || (slug == slug' && now in urls && signer.Ref(now) == ref)
    decreases |urls|
  {
    if urls != [] {
      ReferenceStays(signer, Register(signer, assets, slug', urls[0]), slug, slug', urls[1..], ref);
    }
  }

  /** Every registered URL is found under its reference, up to hash collisions among the batch. */
  lemma {:induction false} RegisteredAreFound(signer: Signer, assets: Assets, slug: string, urls: seq<string>, k: nat)
    requires k < |urls|
    ensures var ref := signer.Ref(urls[k]);
            var after := RegisterAll(signer, assets, slug, urls);
            && ref in Bucket(after, slug)
            && signer.Ref(AssetSource(after, slug, ref)) == ref
            && AssetSource(after, slug, ref) in urls
    decreases |urls|
  {
    var first := Register(signer, assets, slug, urls[0]);
    if k == 0 {
      ReferenceStays(signer, first, slug, slug, urls[1..], signer.Ref(urls[0]));
    } else {
      RegisteredAreFound(signer, first, slug, urls[1..], k - 1);
    }
  }

  // ---------------------------------------------------------------- end to end

  /** A registered URL is served under its signed link, with or without a token. */
  lemma {:induction false} SignedUrlIsServed(signer: Signer, before: Assets, slug: string, resolved: seq<string>,
                                             k: nat, exp: int, sig: string)
    requires signer.Valid() && IsBytes(slug) && Servable(slug) && CollisionFree(signer, resolved) && k < |resolved|
    ensures var registered, link := RegisterAll(signer, before, slug, resolved), SignedUrl(signer, slug, resolved[k]);
            ServeAsset(signer, registered, link) == ServeAsset(signer, registered, Appender(exp, sig)(link))
            == resolved[k]
  {
    ServeSignedUrl(signer, RegisterAll(signer, before, slug, resolved), slug, resolved[k], exp, sig);
    RegisteredAreFound(signer, before, slug, resolved, k);
  }

  /** The links of the served text, with the token behind each if there is one. */
  lemma {:induction false} ServedLinks(signer: Signer, urls: UrlLibrary, base: string, slug: string, source: string,
                                       exp: int, sig: string)
    requires signer.Valid()
    ensures var served := TokenPass(RewriteText(signer, urls, base, slug, ScanLines(source)), exp, sig);
            var links := MapAll(Linker(signer, urls, base, slug), PlaylistLinks(source));
            PlaylistLinks(served) == if exp == 0 || sig == "" then links else MapAll(Appender(exp, sig), links)
  {
    RewrittenLines(signer, urls, base, slug, source);
    if exp != 0 && sig != "" {
      TokenPassLinks(RewriteText(signer, urls, base, slug, ScanLines(source)), exp, sig);
    }
  }

  /** Every link that a player reads from a served playlist leads back to the source URL that stood
      at its place, whether a token was appended or not. */
  lemma {:induction false} PlaylistEndToEnd(signer: Signer, urls: UrlLibrary, base: string, slug: string,
                                            source: string, before: Assets, exp: int, sig: string)
    requires signer.Valid() && IsBytes(slug) && Servable(slug)
    requires CollisionFree(signer, MapAll(Resolver(urls, base), PlaylistLinks(source)))
    ensures var registered := RegisterAll(signer, before, slug, MapAll(Resolver(urls, base), PlaylistLinks(source)));
            var served := TokenPass(RewriteText(signer, urls, base, slug, ScanLines(source)), exp, sig);
            && |PlaylistLinks(served)| == |PlaylistLinks(source)|
            && forall k | 0 <= k < |PlaylistLinks(source)| ::
                 ServeAsset(signer, registered, PlaylistLinks(served)[k])
                 == urls.resolve(base, PlaylistLinks(source)[k])
  {
    var resolved := MapAll(Resolver(urls, base), PlaylistLinks(source));
    ServedLinks(signer, urls, base, slug, source, exp, sig);
    forall k | 0 <= k < |resolved|
      ensures var registered, link := RegisterAll(signer, before, slug, resolved), SignedUrl(signer, slug, resolved[k]);
              ServeAsset(signer, registered, link) == ServeAsset(signer, registered, Appender(exp, sig)(link))
              == resolved[k]
    {
      SignedUrlIsServed(signer, before, slug, resolved, k, exp, sig);
    }
  }
}

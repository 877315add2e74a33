/** relay/rewriter.go and RegisterAsset of relay/manager.go (no R2 client configured). */
module Rewriter {
  import opened Text
  import opened UriAttributes
  import opened UrlEncoding
  import opened Links
  import opened Signers
  import opened Requests

  /** url.Parse and ResolveReference (section 5.2 of RFC 3986), as parameters of the model. */
  datatype UrlLibrary = UrlLibrary(parses: string -> bool, resolve: (string, string) -> string)

  // ---------------------------------------------------------------- the registry

  type Assets = map<string, map<string, string>>

  function Bucket(assets: Assets, slug: string): map<string, string> {
    if slug in assets then assets[slug] else map[]
  }

  function Register(signer: Signer, assets: Assets, slug: string, url: string): Assets {
    assets[slug := Bucket(assets, slug)[signer.Ref(url) := url]]
  }

  function RegisterAll(signer: Signer, assets: Assets, slug: string, urls: seq<string>): Assets
    decreases |urls|
  {
    if urls == [] then assets
    else RegisterAll(signer, Register(signer, assets, slug, urls[0]), slug, urls[1..])
  }

  function SignedUrl(signer: Signer, slug: string, url: string): string {
    AssetUrl(slug, signer.Ref(url), signer.Sign(signer.Ref(url)))
  }

  /** assetSource: the empty string stands for an unknown reference. */
  function AssetSource(assets: Assets, slug: string, ref: string): string {
    if ref in Bucket(assets, slug) then assets[slug][ref] else ""
  }

  class AssetRegistry {
    const signer: Signer
    var assets: Assets

    constructor (signer: Signer)
      ensures this.signer == signer && assets == map[]
    {
      this.signer := signer;
      assets := map[];
    }

    method RegisterAsset(slug: string, sourceURL: string) returns (ref: string, link: string)
      modifies this
      ensures assets == Register(signer, old(assets), slug, sourceURL)
      ensures ref == signer.Ref(sourceURL) && link == SignedUrl(signer, slug, sourceURL)
    {
      ref := signer.Ref(sourceURL);
      var sig := signer.Sign(ref);
      if slug !in assets {
        assets := assets[slug := map[]];
      }
      assets := assets[slug := assets[slug][ref := sourceURL]];
      link := AssetUrl(slug, ref, sig);
    }
  }

  // ---------------------------------------------------------------- the rewriting pass

  /** bufio.MaxScanTokenSize: a line this long stops the scanner with an error. */
  const MAX_TOKEN: nat := 64 * 1024

  /** The lines without a final empty one. */
  function WithoutBlankEnd(lines: seq<string>): seq<string>
    requires lines != []
  {
    if lines[|lines| - 1] == "" then lines[..|lines| - 1] else lines
  }

  /** The lines that bufio.Scanner yields: a final empty line is none. */
  function ScanLines(source: string): seq<string> {
    WithoutBlankEnd(Split(source, '\n'))
  }

  /** Number of lines before the first one over the scanner's limit. */
  function Scannable(lines: seq<string>): (n: nat)
    ensures n <= |lines|
    ensures forall i | 0 <= i < n :: |lines[i]| < MAX_TOKEN
    ensures n < |lines| ==> |lines[n]| >= MAX_TOKEN
  {
    if lines == [] || |lines[0]| >= MAX_TOKEN then 0 else 1 + Scannable(lines[1..])
  }

  function TrimLines(lines: seq<string>): (r: seq<string>)
    ensures |r| == |lines|
    ensures forall i | 0 <= i < |lines| :: r[i] == TrimSpace(lines[i])
  {
    seq(|lines|, i requires 0 <= i < |lines| => TrimSpace(lines[i]))
  }

  /** The links of a source playlist, by line as the relay reads it. */
  function SourceLinks(source: string): seq<string> {
    LinksOf(TrimLines(ScanLines(source)))
  }

  /** The text with a line feed behind its last line. */
  function Terminated(source: string): string {
    if source == "" || source[|source| - 1] == '\n' then source else source + "\n"
  }

  lemma {:induction false} JoinBlankEnd(lines: seq<string>)
    ensures Join(lines + [""], '\n') == Unlines(lines)
  {
    if lines == [] {
      assert lines + [""] == [""];
    } else {
      assert (lines + [""])[1..] == lines[1..] + [""];
      JoinBlankEnd(lines[1..]);
    }
  }

  lemma LinesAreWhole(lines: seq<string>)
    requires lines != [] && Free(lines, '\n')
    ensures Unlines(WithoutBlankEnd(lines)) == Terminated(Join(lines, '\n'))
  {
    var read := WithoutBlankEnd(lines);
    if lines[|lines| - 1] == "" {
      assert lines == read + [""];
      JoinBlankEnd(read);
      UnlinesEnds(read);
    } else {
      UnlinesIsJoin(lines);
      JoinEnds(lines);
    }
  }

  /** The scanner yields every line of the text, the last one whether a line feed ends it or not. */
  lemma {:induction false} ScanLinesIsWhole(source: string)
    ensures Unlines(ScanLines(source)) == Terminated(source)
    ensures Split(Terminated(source), '\n') == ScanLines(source) + [""]
  {
    JoinSplit(source, '\n');
    SplitIsFree(source, '\n');
    LinesAreWhole(Split(source, '\n'));
    SplitUnlines(ScanLines(source));
  }

  lemma {:induction false} UnlinesEnds(lines: seq<string>)
    ensures Unlines(lines) == "" || Unlines(lines)[|Unlines(lines)| - 1] == '\n'
  {
    if lines != [] {
      UnlinesEnds(lines[1..]);
    }
  }

  lemma {:induction false} UnlinesIsJoin(lines: seq<string>)
    requires lines != []
    ensures Unlines(lines) == Join(lines, '\n') + "\n"
  {
    if |lines| == 1 {
      assert Unlines(lines) == lines[0] + "\n" + Unlines([]);
    } else {
      UnlinesIsJoin(lines[1..]);
    }
  }

  lemma {:induction false} JoinEnds(lines: seq<string>)
    requires lines != [] && lines[|lines| - 1] != ""
    ensures var s, last := Join(lines, '\n'), lines[|lines| - 1]; s != "" && s[|s| - 1] == last[|last| - 1]
  {
    if |lines| > 1 {
      JoinEnds(lines[1..]);
    }
  }

  lemma {:induction false} LinksOfTrimmedLines(lines: seq<string>)
    ensures LinksOf(TrimLines(lines)) == LinksOf(lines)
  {
    if lines != [] {
      LinksOfTrimmedLine(lines[0]);
      LinksOfTrimmedLines(lines[1..]);
      assert TrimLines(lines)[1..] == TrimLines(lines[1..]);
    }
  }

  lemma LinksWithBlankEnd(lines: seq<string>)
    ensures LinksOf(lines + [""]) == LinksOf(lines)
  {
    LinksConcat(lines, [""]);
    assert LinksOf([""]) == LineLinks("") + LinksOf([""][1..]);
  }

  /** The relay reads exactly the links that a player reads from the source. */
  lemma {:induction false} SourceLinksAreLinks(source: string)
    ensures SourceLinks(source) == PlaylistLinks(source)
  {
    LinksOfTrimmedLines(ScanLines(source));
    LinksWithBlankEnd(ScanLines(source));
    ScannedOrBlank(source);
  }

  lemma ScannedOrBlank(source: string)
    ensures var lines, read := Split(source, '\n'), ScanLines(source);
            lines == read || lines == read + [""]
  {
  }

  /** No line reaches the scanner's limit. */
  predicate AllShort(lines: seq<string>) {
    forall i | 0 <= i < |lines| :: |lines[i]| < 65_536
  }

  lemma ScansShortLines(lines: seq<string>)
    ensures Scannable(lines) == |lines| <==> AllShort(lines)
  {
  }

  lemma ShortWithBlankEnd(lines: seq<string>)
    ensures AllShort(lines + [""]) <==> AllShort(lines)
  {
    assert forall i | 0 <= i < |lines| :: (lines + [""])[i] == lines[i];
  }

  lemma {:induction false} ScansAll(source: string)
    ensures Scannable(ScanLines(source)) == |ScanLines(source)| <==> AllShort(Split(source, '\n'))
  {
    var lines, read := Split(source, '\n'), ScanLines(source);
    ScansShortLines(read);
    ShortWithBlankEnd(read);
    assert lines == read || lines == read + [""];
  }

  function Resolver(urls: UrlLibrary, base: string): string -> string {
    x => urls.resolve(base, x)
  }

  function Linker(signer: Signer, urls: UrlLibrary, base: string, slug: string): string -> string {
    x => SignedUrl(signer, slug, urls.resolve(base, x))
  }

  /** The text written for the given source lines. */
  function RewriteText(signer: Signer, urls: UrlLibrary, base: string, slug: string, lines: seq<string>): string {
    Unlines(MapLines(TrimLines(lines), Linker(signer, urls, base, slug)))
  }

  /** The resolved links of the given source lines. */
  function Resolved(urls: UrlLibrary, base: string, lines: seq<string>): seq<string> {
    MapAll(Resolver(urls, base), LinksOf(TrimLines(lines)))
  }

  /** Lines that end in a carriage return and a line feed are read like lines that end in a line feed. */
  lemma CarriageReturnsDoNotCount(signer: Signer, urls: UrlLibrary, base: string, slug: string, lines: seq<string>)
    requires Free(lines, '\n')
    ensures var source := Unlines(lines);
            var windows := Unlines(seq(|lines|, i requires 0 <= i < |lines| => lines[i] + "\r"));
            && RewriteText(signer, urls, base, slug, ScanLines(windows))
               == RewriteText(signer, urls, base, slug, ScanLines(source))
            && Resolved(urls, base, ScanLines(windows)) == Resolved(urls, base, ScanLines(source))
  {
    var returned := seq(|lines|, i requires 0 <= i < |lines| => lines[i] + "\r");
    SplitUnlines(lines);
    SplitUnlines(returned);
    assert (lines + [""])[..|lines|] == lines && (returned + [""])[..|lines|] == returned;
    forall i | 0 <= i < |lines|
      ensures TrimLines(returned)[i] == TrimLines(lines)[i]
    {
      TrimSpaceBeforeReturn(lines[i]);
    }
    assert TrimLines(returned) == TrimLines(lines);
  }

  datatype Result = Success(playlist: string, assets: seq<string>) | Failure

  lemma {:induction false} RegisterAllConcat(signer: Signer, assets: Assets, slug: string, a: seq<string>,
                                             b: seq<string>)
    ensures RegisterAll(signer, assets, slug, a + b)
            == RegisterAll(signer, RegisterAll(signer, assets, slug, a), slug, b)
    decreases |a|
  {
    if a == [] {
      assert a + b == b;
    } else {
      assert (a + b)[1..] == a[1..] + b;
      RegisterAllConcat(signer, Register(signer, assets, slug, a[0]), slug, a[1..], b);
    }
  }

  lemma TextStep(done: string, rest: string, f: string -> string, whole: string)
    requires rest != "" && done + ReplaceAll(rest, f) == whole
    ensures if MatchesHere(rest)
            then done + OPEN + f(Captured(rest)) + "\"" + ReplaceAll(AfterMatch(rest), f) == whole
            else done + [rest[0]] + ReplaceAll(rest[1..], f) == whole
  {
    if MatchesHere(rest) {
      Regroup(done, OPEN, f(Captured(rest)), "\"", ReplaceAll(AfterMatch(rest), f));
    } else {
      Regroup(done, "", "", [rest[0]], ReplaceAll(rest[1..], f));
      assert "" + "" + [rest[0]] == [rest[0]] && done + "" + "" == done;
    }
  }

  lemma Regroup(a: string, b: string, c: string, d: string, e: string)
    ensures a + (b + c + d + e) == a + b + c + d + e
  {
  }

  lemma FoundStep(found: seq<string>, rest: string, r: string -> string, all: seq<string>)
    requires rest != "" && found + MapAll(r, Captures(rest)) == all
    ensures if MatchesHere(rest)
            then found + [r(Captured(rest))] + MapAll(r, Captures(AfterMatch(rest))) == all
            else found + MapAll(r, Captures(rest[1..])) == all
  {
  }

  /** ReplaceAllStringFunc over one tag line, with the callback's effects on the asset list and on
      the registry. */
  method RewriteTag(line: string, urls: UrlLibrary, base: string, slug: string, registry: AssetRegistry)
    returns (rewritten: string, found: seq<string>)
    modifies registry
    ensures rewritten == ReplaceAll(line, Linker(registry.signer, urls, base, slug))
    ensures found == MapAll(Resolver(urls, base), Captures(line))
    ensures registry.assets == RegisterAll(registry.signer, old(registry.assets), slug, found)
  {
    ghost var f, r := Linker(registry.signer, urls, base, slug), Resolver(urls, base);
    ghost var whole, all := ReplaceAll(line, f), MapAll(r, Captures(line));
    var rest := line;
    rewritten, found := "", [];
    while rest != ""
      invariant rewritten + ReplaceAll(rest, f) == whole
      invariant found + MapAll(r, Captures(rest)) == all
      invariant registry.assets == RegisterAll(registry.signer, old(registry.assets), slug, found)
      decreases |rest|
    {
      TextStep(rewritten, rest, f, whole);
      FoundStep(found, rest, r, all);
      if MatchesHere(rest) {
        var resolved := urls.resolve(base, Captured(rest));
        RegisterAllConcat(registry.signer, old(registry.assets), slug, found, [resolved]);
        found := found + [resolved];
        var _, link := registry.RegisterAsset(slug, resolved);
        rewritten := rewritten + OPEN + link + "\"";
        rest := AfterMatch(rest);
      } else {
        rewritten := rewritten + [rest[0]];
        rest := rest[1..];
      }
    }
  }

  /** One more line of the source is one more line of the text, and its links come behind the
      others. */
  lemma PassStep(signer: Signer, urls: UrlLibrary, base: string, slug: string, lines: seq<string>, last: string,
                 output: string, rewritten: string, assets: seq<string>, found: seq<string>)
    requires output == RewriteText(signer, urls, base, slug, lines)
    requires rewritten == MapLine(TrimSpace(last), Linker(signer, urls, base, slug))
    requires assets == Resolved(urls, base, lines)
    requires found == MapAll(Resolver(urls, base), LineLinks(TrimSpace(last)))
    ensures output + rewritten + "\n" == RewriteText(signer, urls, base, slug, lines + [last])
    ensures assets + found == Resolved(urls, base, lines + [last])
  {
    var f, r := Linker(signer, urls, base, slug), Resolver(urls, base);
    var line, before := TrimSpace(last), TrimLines(lines);
    assert TrimLines(lines + [last]) == before + [line];
    assert MapLines(before + [line], f) == MapLines(before, f) + [MapLine(line, f)];
    UnlinesSnoc(MapLines(before, f), MapLine(line, f));
    LinksConcat(before, [line]);
    assert LinksOf([line]) == LineLinks(line) + LinksOf([]);
    MapAllConcat(r, LinksOf(before), LineLinks(line));
  }

  /** One line of the loop, without the line feed that ends it. */
  method RewriteLine(line: string, urls: UrlLibrary, base: string, slug: string, registry: AssetRegistry)
    returns (rewritten: string, found: seq<string>)
    requires Trimmed(line)
    modifies registry
    ensures rewritten == MapLine(line, Linker(registry.signer, urls, base, slug))
    ensures found == MapAll(Resolver(urls, base), LineLinks(line))
    ensures registry.assets == RegisterAll(registry.signer, old(registry.assets), slug, found)
  {
    TrimSpaceTrims(line);
    if line == "" {
      return "", [];
    }
    if "#" <= line {
      rewritten, found := RewriteTag(line, urls, base, slug, registry);
    } else {
      var resolved := urls.resolve(base, line);
      found := [resolved];
      var _, link := registry.RegisterAsset(slug, resolved);
      rewritten := link;
    }
  }

  /** One turn of the loop, behind the lines already scanned. */
  method RewriteNext(raw: string, urls: UrlLibrary, base: string, slug: string, registry: AssetRegistry,
                     output: string, assets: seq<string>, ghost scanned: seq<string>, ghost before: Assets)
    returns (longer: string, more: seq<string>)
    requires output == RewriteText(registry.signer, urls, base, slug, scanned)
    requires assets == Resolved(urls, base, scanned)
    requires registry.assets == RegisterAll(registry.signer, before, slug, assets)
    modifies registry
    ensures longer == RewriteText(registry.signer, urls, base, slug, scanned + [raw])
    ensures more == Resolved(urls, base, scanned + [raw])
    ensures registry.assets == RegisterAll(registry.signer, before, slug, more)
  {
    TrimSpaceTrims(raw);
    var rewritten, found := RewriteLine(TrimSpace(raw), urls, base, slug, registry);
    PassStep(registry.signer, urls, base, slug, scanned, raw, output, rewritten, assets, found);
    RegisterAllConcat(registry.signer, before, slug, assets, found);
    longer := output + rewritten + "\n";
    more := assets + found;
  }

  lemma TakeNext(lines: seq<string>, i: nat)
    requires i < |lines|
    ensures lines[..i + 1] == lines[..i] + [lines[i]]
  {
  }

  /** The loop over the scanner's lines. */
  method RewriteLines(raw: seq<string>, urls: UrlLibrary, base: string, slug: string, registry: AssetRegistry)
    returns (ok: bool, output: string, assets: seq<string>)
    modifies registry
    ensures ok <==> Scannable(raw) == |raw|
    ensures output == RewriteText(registry.signer, urls, base, slug, raw[..Scannable(raw)])
    ensures assets == Resolved(urls, base, raw[..Scannable(raw)])
    ensures registry.assets == RegisterAll(registry.signer, old(registry.assets), slug, assets)
  {
    ghost var scanned: seq<string> := [];
    output, assets := "", [];
    var i := 0;
    while i < |raw|
      invariant 0 <= i <= Scannable(raw) && scanned == raw[..i]
      invariant output == RewriteText(registry.signer, urls, base, slug, scanned)
      invariant assets == Resolved(urls, base, scanned)
      invariant registry.assets == RegisterAll(registry.signer, old(registry.assets), slug, assets)
    {
      if |raw[i]| >= MAX_TOKEN {
        assert raw[..Scannable(raw)] == scanned;
        return false, output, assets;
      }
      output, assets := RewriteNext(raw[i], urls, base, slug, registry, output, assets, scanned, old(registry.assets));
      TakeNext(raw, i);
      assert i < Scannable(raw);
      scanned := scanned + [raw[i]];
      i := i + 1;
    }
    assert raw[..Scannable(raw)] == scanned;
    ok := true;
  }

  /** The playlist has every link replaced in place and every resolved link is registered, in order.
      A line over the scanner's limit fails the call after the lines before it have been registered;
      an unparsable base URL fails it at once. */
  method RewritePlaylist(source: string, sourcePlaylistURL: string, slug: string, urls: UrlLibrary,
                         registry: AssetRegistry)
    returns (result: Result)
    modifies registry
    ensures result.Success? <==> urls.parses(sourcePlaylistURL) && Scannable(ScanLines(source)) == |ScanLines(source)|
    ensures result.Success? <==> urls.parses(sourcePlaylistURL) && AllShort(Split(source, '\n'))
    ensures result.Success? ==>
              && result.playlist == RewriteText(registry.signer, urls, sourcePlaylistURL, slug, ScanLines(source))
              && result.assets == Resolved(urls, sourcePlaylistURL, ScanLines(source))
              && result.assets == MapAll(Resolver(urls, sourcePlaylistURL), PlaylistLinks(source))
    ensures registry.assets ==
              if !urls.parses(sourcePlaylistURL) then old(registry.assets)
              else
                var read := ScanLines(source)[..Scannable(ScanLines(source))];
                RegisterAll(registry.signer, old(registry.assets), slug, Resolved(urls, sourcePlaylistURL, read))
  {
    if !urls.parses(sourcePlaylistURL) {
      return Failure;
    }
    var raw := ScanLines(source);
    ScansAll(source);
    SourceLinksAreLinks(source);
    var ok, output, assets := RewriteLines(raw, urls, sourcePlaylistURL, slug, registry);
    if !ok {
      return Failure;
    }
    assert raw[..|raw|] == raw;
    result := Success(output, assets);
  }
}

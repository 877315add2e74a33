/** The URLs that a player takes from a playlist (section 4.1 of RFC 8216): every URI line and
    every URI attribute of a tag, in order of appearance. */
module Links {
  import opened Text
  import opened UriAttributes

  predicate IsTag(line: string) {
    TrimSpace(line) != "" && TrimSpace(line)[0] == '#'
  }

  predicate IsUri(line: string) {
    TrimSpace(line) != "" && TrimSpace(line)[0] != '#'
  }

  /** The links of one line.  In a tag they are what the relay's own expression matches, so an
      attribute whose name merely ends in URI, such as X-ASSET-URI, counts as well. */
  function LineLinks(line: string): seq<string> {
    if IsUri(line) then [TrimSpace(line)] else Captures(line)
  }

  function LinksOf(lines: seq<string>): seq<string> {
    if lines == [] then [] else LineLinks(lines[0]) + LinksOf(lines[1..])
  }

  function PlaylistLinks(text: string): seq<string> {
    LinksOf(Split(text, '\n'))
  }

  lemma LinksOfTrimmedLine(line: string)
    ensures LineLinks(TrimSpace(line)) == LineLinks(line)
  {
    TrimSpaceTrims(line);
    TrimSpaceTrims(TrimSpace(line));
    CapturesOfTrimmed(line);
  }

  /** Both passes have this shape: URI lines are mapped as a whole, other lines attribute by
      attribute. */
  function MapLine(line: string, f: string -> string): string {
    if IsUri(line) then f(line) else ReplaceAll(line, f)
  }

  function MapLines(lines: seq<string>, f: string -> string): (r: seq<string>)
    ensures |r| == |lines|
    ensures forall i | 0 <= i < |lines| :: r[i] == MapLine(lines[i], f)
  {
    seq(|lines|, i requires 0 <= i < |lines| => MapLine(lines[i], f))
  }

  lemma MapLinesBlankEnd(lines: seq<string>, f: string -> string)
    ensures MapLines(lines + [""], f) == MapLines(lines, f) + [""]
  {
  }

  /** `f` turns URI lines into URI lines. */
  ghost predicate UriToUri(f: string -> string) {
    forall x | IsUri(x) && Trimmed(x) :: IsUri(f(x)) && Trimmed(f(x))
  }

  lemma MapLineKeepsKind(line: string, f: string -> string)
    requires UriToUri(f) && (IsUri(line) ==> Trimmed(line))
    ensures IsUri(MapLine(line, f)) <==> IsUri(line)
    ensures IsTag(MapLine(line, f)) <==> IsTag(line)
    ensures IsUri(line) ==> Trimmed(MapLine(line, f))
  {
    if IsUri(line) {
      assert Trimmed(line) && IsUri(f(line));
    } else {
      var t := TrimLeft(line);
      TrimLeftTrims(line);
      if t != "" && t[0] != '#' {
        NotBlankUnlessTag(line);
      }
      TrimLeftCommutes(line, f);
      if t != "" {
        HashStaysFirst(t, f);
        TrimRightKeepsFirst(t);
        TrimRightKeepsFirst(ReplaceAll(t, f));
      }
    }
  }

  /** A line whose first visible character is not # is a URI line. */
  lemma NotBlankUnlessTag(line: string)
    requires TrimLeft(line) != "" && TrimLeft(line)[0] != '#'
    ensures IsUri(line)
  {
    TrimLeftTrims(line);
    TrimRightKeepsFirst(TrimLeft(line));
  }

  lemma MapLineLinks(line: string, f: string -> string)
    requires UriToUri(f) && Requotable(f) && (IsUri(line) ==> Trimmed(line))
    ensures LineLinks(MapLine(line, f)) == MapAll(f, LineLinks(line))
  {
    MapLineKeepsKind(line, f);
    if IsUri(line) {
      TrimSpaceTrims(line);
      TrimSpaceTrims(f(line));
    } else {
      PassesAgree(line, f, f);
    }
  }

  ghost predicate UrisTrimmed(lines: seq<string>) {
    forall i | 0 <= i < |lines| :: IsUri(lines[i]) ==> Trimmed(lines[i])
  }

  lemma MapAllConcat(f: string -> string, a: seq<string>, b: seq<string>)
    ensures MapAll(f, a + b) == MapAll(f, a) + MapAll(f, b)
  {
  }

  /** A pass over the lines maps the links one by one, each in its place. */
  lemma {:induction false} MapLinesLinks(lines: seq<string>, f: string -> string)
    requires UriToUri(f) && Requotable(f) && UrisTrimmed(lines)
    ensures LinksOf(MapLines(lines, f)) == MapAll(f, LinksOf(lines))
    ensures UrisTrimmed(MapLines(lines, f))
  {
    forall i | 0 <= i < |lines|
      ensures IsUri(MapLines(lines, f)[i]) ==> Trimmed(MapLines(lines, f)[i])
    {
      MapLineKeepsKind(lines[i], f);
    }
    if lines != [] {
      var rest := lines[1..];
      MapLinesLinks(rest, f);
      assert MapLines(lines, f)[1..] == MapLines(rest, f);
      MapLineLinks(lines[0], f);
      MapAllConcat(f, LineLinks(lines[0]), LinksOf(rest));
    }
  }

  lemma {:induction false} LinksConcat(a: seq<string>, b: seq<string>)
    ensures LinksOf(a + b) == LinksOf(a) + LinksOf(b)
  {
    if a == [] {
      assert a + b == b;
    } else {
      assert (a + b)[1..] == a[1..] + b;
      LinksConcat(a[1..], b);
    }
  }

  /** Two passes are one pass by the composition. */
  lemma {:induction false} MapLinesTwice(lines: seq<string>, f: string -> string, g: string -> string)
    requires UriToUri(f) && Requotable(f) && UrisTrimmed(lines)
    ensures MapLines(MapLines(lines, f), g) == MapLines(lines, x => g(f(x)))
  {
    forall i | 0 <= i < |lines|
      ensures MapLines(MapLines(lines, f), g)[i] == MapLines(lines, x => g(f(x)))[i]
    {
      MapLineKeepsKind(lines[i], f);
      PassesAgree(lines[i], f, g);
    }
  }
}

/** Two playlists that trimming does not leave as a player should see them. */
module TransmuxExamples {
  import opened Text
  import opened Decimal
  import opened Transmux
  import opened TransmuxReader
  import opened TransmuxTrimming
  import opened TransmuxTags

  // ---------------------------------------------------------------- a tag that moves

  const DURATION := "#EXTINF:4,"

  lemma ExampleLines()
    ensures IsExtInf(DURATION) && !PlaylistLevel(DURATION)
    ensures KindOf(DISCONTINUITY, false) == Header && IsSegmentTag(DISCONTINUITY)
    ensures forall name | name == "a.ts" || name == "b.ts" || name == "c.ts" ::
              !IsHeader(name) && TrimSpace(name) == name
  {
    AlreadyTrimmed(DURATION);
    assert DURATION[..8] == EXTINF;
    TagsDiffer(DURATION);
    AlreadyTrimmed(DISCONTINUITY);
    assert DISCONTINUITY[7] == 'D' && EXTINF[7] == ':' && SEQUENCE[7] == 'M' && |DISCONTINUITY| > |EXTM3U|;
    AlreadyTrimmed("a.ts");
    AlreadyTrimmed("b.ts");
    AlreadyTrimmed("c.ts");
  }

  predicate Name(line: string) {
    !IsHeader(line) && TrimSpace(line) == line
  }

  lemma UriKind(line: string)
    requires !IsHeader(line)
    ensures KindOf(line, false) == Uri && !PlaylistLevel(line) && !IsExtInf(line)
  {
    HeaderKinds(line);
  }

  lemma ScanOf(lines: seq<string>, line: string)
    ensures ScanPlaylist(lines + [line]) == Next(ScanPlaylist(lines), KindOf(line, ScanPlaylist(lines).started), line)
  {
    assert (lines + [line])[..|lines|] == lines;
  }

  lemma ScanSegment(lines: seq<string>, items: seq<Item>, info: string, name: string, number: int)
    requires ScanPlaylist(lines) == Scan(items, [], false, number)
    requires IsExtInf(info) && !PlaylistLevel(info) && !IsHeader(name) && TrimSpace(name) == name
    ensures ScanPlaylist(lines + [info] + [name]) == Scan(items + [Segment([info], name)], [], false, number)
  {
    UriKind(name);
    ScanOf(lines, info);
    assert [] + [info] == [info];
    ScanOf(lines + [info], name);
  }

  lemma FiveLines(tag: string, info: string, a: string, b: string)
    ensures [tag] + [info] + [a] + [info] + [b] == [tag, info, a, info, b]
  {
  }

  lemma ScanTag(tag: string)
    requires KindOf(tag, false) == Header
    ensures ScanPlaylist([tag]) == Scan([Line(tag)], [], false, -1)
  {
    var none: seq<string>, items: seq<Item> := [], [];
    ScanOf(none, tag);
    assert none + [tag] == [tag] && items + [Line(tag)] == [Line(tag)];
    assert ScanPlaylist(none) == Scan(items, [], false, -1);
  }

  lemma ScanTagged(tag: string, info: string, a: string, b: string)
    requires KindOf(tag, false) == Header && IsExtInf(info) && !PlaylistLevel(info) && Name(a) && Name(b)
    ensures ScanPlaylist([tag, info, a, info, b])
            == Scan([Line(tag)] + [Segment([info], a)] + [Segment([info], b)], [], false, -1)
  {
    ScanTag(tag);
    ScanSegment([tag], [Line(tag)], info, a, -1);
    ScanSegment([tag] + [info] + [a], [Line(tag)] + [Segment([info], a)], info, b, -1);
    FiveLines(tag, info, a, b);
  }

  lemma EmitTagged(tag: string, first: Item, second: Item, keep: string -> bool)
    requires first.Segment? && second.Segment? && !keep(first.name) && keep(second.name)
    ensures Emit([Line(tag)] + [first] + [second], keep) == [tag] + (second.header + ["segment/" + second.name])
    ensures DroppedFromHead([Line(tag)] + [first] + [second], keep) == 1
  {
    var items: seq<Item> := [];
    EmitSnoc(items, Line(tag), keep);
    assert items + [Line(tag)] == [Line(tag)] && Emit(items, keep) == [];
    EmitSnoc([Line(tag)], first, keep);
    SomeKeptSnoc(items, Line(tag), keep);
    EmitSnoc([Line(tag)] + [first], second, keep);
  }

  /** A tag in front of the EXTINF tag of a dropped segment, whatever the two segments are. */
  lemma TagMoves(tag: string, info: string, a: string, b: string, keep: string -> bool)
    requires KindOf(tag, false) == Header && IsExtInf(info) && !PlaylistLevel(info) && Name(a) && Name(b)
    requires !keep(a) && keep(b)
    ensures ServedLines([tag, info, a, info, b], true, keep) == [tag, info, "segment/" + b]
  {
    ScanTagged(tag, info, a, b);
    EmitTagged(tag, Segment([info], a), Segment([info], b), keep);
    assert [tag] + ([info] + ["segment/" + b]) == [tag, info, "segment/" + b];
  }

  lemma PlaySegment(lines: seq<string>, p: Player, info: string, uri: string)
    requires Play(FRESH, lines) == p && IsExtInf(info) && !IsHeader(uri)
    ensures Play(FRESH, lines + [info] + [uri]) == Player(p.segments + [Tagged(p.tags + [info], TrimSpace(uri))], [])
  {
    HeaderKinds(info);
    PlaySnoc(FRESH, lines, info);
    PlaySnoc(FRESH, lines + [info], uri);
  }

  lemma PlayTag(tag: string)
    requires IsSegmentTag(tag)
    ensures Play(FRESH, [tag]) == Player([], [tag])
  {
    NoSegmentTags(tag);
    PlaySnoc(FRESH, [], tag);
    assert [] + [tag] == [tag];
  }

  /** What a player sees of it: before, the tag is the first segment's; afterwards, the second's. */
  lemma TagIsSeenFirst(tag: string, info: string, a: string, b: string)
    requires IsSegmentTag(tag) && IsExtInf(info) && Name(a) && Name(b)
    ensures Segments([tag, info, a, info, b]) == [Tagged([tag, info], a), Tagged([info], b)]
  {
    var none: seq<Tagged> := [];
    PlayTag(tag);
    PlaySegment([tag], Player([], [tag]), info, a);
    assert [tag] + [info] == [tag, info] && [] + [info] == [info];
    PlaySegment([tag] + [info] + [a], Player(none + [Tagged([tag] + [info], a)], []), info, b);
    FiveLines(tag, info, a, b);
  }

  lemma TagIsSeenAlone(tag: string, info: string, b: string)
    requires IsSegmentTag(tag) && IsExtInf(info) && Name(b)
    ensures Segments([tag, info, "segment/" + b]) == [Tagged([tag, info], "segment/" + b)]
  {
    PlayTag(tag);
    SegmentLine(b);
    PlaySegment([tag], Player([], [tag]), info, "segment/" + b);
    assert [tag] + [info] == [tag, info];
    assert [tag] + [info] + ["segment/" + b] == [tag, info, "segment/" + b];
  }

  lemma TagMovesForPlayers(tag: string, info: string, a: string, b: string, keep: string -> bool)
    requires KindOf(tag, false) == Header && IsSegmentTag(tag) && IsExtInf(info) && !PlaylistLevel(info)
    requires Name(a) && Name(b) && !keep(a) && keep(b)
    ensures var lines := [tag, info, a, info, b];
            && Segments(lines) == [Tagged([tag, info], a), Tagged([info], b)]
            && Segments(ServedLines(lines, true, keep)) == [Tagged([tag, info], "segment/" + b)]
  {
    TagMoves(tag, info, a, b, keep);
    TagIsSeenFirst(tag, info, a, b);
    TagIsSeenAlone(tag, info, b);
  }

  /** ffmpeg marks a new session by a discontinuity in front of its first segment.  When that segment
      is withheld, or its file has gone, the mark moves to the next one. */
  lemma DiscontinuityMoves(a: string, b: string, keep: string -> bool)
    requires Name(a) && Name(b) && !keep(a) && keep(b)
    ensures var lines := [DISCONTINUITY, DURATION, a, DURATION, b];
            && Segments(lines) == [Tagged([DISCONTINUITY, DURATION], a), Tagged([DURATION], b)]
            && Segments(ServedLines(lines, true, keep)) == [Tagged([DISCONTINUITY, DURATION], "segment/" + b)]
  {
    ExampleLines();
    TagMovesForPlayers(DISCONTINUITY, DURATION, a, b, keep);
  }

  // ---------------------------------------------------------------- a gap in the files

  lemma ReadSegment(r: Reader, lines: seq<string>, entries: seq<Entry>, info: string, name: string)
    requires ReadLines(r, lines) == Reader(entries, [])
    requires IsExtInf(info) && !PlaylistLevel(info) && !IsHeader(name) && TrimSpace(name) == name
    ensures ReadLines(r, lines + ([info] + [name])) == Reader(entries + [Entry([info], name)], [])
  {
    UriKind(name);
    ReadSnoc(r, lines, info);
    ReadSnoc(r, lines + [info], name);
    assert [] + [info] == [info];
    assert lines + [info] + [name] == lines + ([info] + [name]);
  }

  lemma SequenceOnly(info: string, name: string)
    requires !PlaylistLevel(info) && !PlaylistLevel(name)
    ensures Sequences([info] + [name]) == []
  {
    SequencesConcat([info], [name]);
    OneSequence(info);
    OneSequence(name);
  }

  /** A playlist of three segments whose first has the number n. */
  function Three(n: int, info: string, a: string, b: string, c: string): seq<string> {
    [SEQUENCE + FormatInt(n)] + ([info] + [a]) + ([info] + [b]) + ([info] + [c])
  }

  lemma EntriesBehind(head: string, info: string, a: string, b: string, c: string)
    requires PlaylistLevel(head) && IsExtInf(info) && !PlaylistLevel(info) && Name(a) && Name(b) && Name(c)
    ensures Entries([head] + ([info] + [a]) + ([info] + [b]) + ([info] + [c]))
            == [Entry([info], a), Entry([info], b), Entry([info], c)]
  {
    var r := Reader([], []);
    var one, two := [head] + ([info] + [a]), [head] + ([info] + [a]) + ([info] + [b]);
    ReadSnoc(r, [], head);
    assert [] + [head] == [head];
    ReadSegment(r, [head], [], info, a);
    ReadSegment(r, one, [] + [Entry([info], a)], info, b);
    ReadSegment(r, two, [] + [Entry([info], a)] + [Entry([info], b)], info, c);
  }

  lemma ThreeEntries(n: int, info: string, a: string, b: string, c: string)
    requires IsInt64(n) && IsExtInf(info) && !PlaylistLevel(info) && Name(a) && Name(b) && Name(c)
    ensures Entries(Three(n, info, a, b, c)) == [Entry([info], a), Entry([info], b), Entry([info], c)]
  {
    PatchedLine(n);
    EntriesBehind(SEQUENCE + FormatInt(n), info, a, b, c);
  }

  lemma ThreeSequences(n: int, info: string, a: string, b: string, c: string)
    requires IsInt64(n) && !PlaylistLevel(info) && Name(a) && Name(b) && Name(c)
    ensures Sequences(Three(n, info, a, b, c)) == [SEQUENCE + FormatInt(n)]
    ensures MediaSequence(Three(n, info, a, b, c)) == n
  {
    var head := [SEQUENCE + FormatInt(n)];
    PatchedLine(n);
    OneSequence(head[0]);
    UriKind(a);
    UriKind(b);
    UriKind(c);
    SequenceOnly(info, a);
    SequenceOnly(info, b);
    SequenceOnly(info, c);
    SequencesConcat(head, [info] + [a]);
    SequencesConcat(head + ([info] + [a]), [info] + [b]);
    SequencesConcat(head + ([info] + [a]) + ([info] + [b]), [info] + [c]);
  }

  lemma KeptOfThree(a: Entry, b: Entry, c: Entry, keep: string -> bool)
    requires keep(a.uri) && !keep(b.uri) && keep(c.uri)
    ensures KeptIndices([a, b, c], keep) == [0, 2]
    ensures Surviving([a, b, c], keep) == [Entry(a.header, "segment/" + a.uri), Entry(c.header, "segment/" + c.uri)]
  {
    assert [a, b, c][..2] == [a, b] && [a, b][..1] == [a] && [a][..0] == [];
    assert KeptIndices([a], keep) == [0] && KeptIndices([a, b], keep) == [0];
    assert Surviving([a, b], keep) == Surviving([a], keep) == [Entry(a.header, "segment/" + a.uri)];
  }

  lemma GapInTheMiddle(n: int, info: string, a: string, b: string, c: string, keep: string -> bool)
    requires 0 <= n && IsInt64(n) && IsExtInf(info) && !PlaylistLevel(info) && Name(a) && Name(b) && Name(c)
    requires keep(a) && !keep(b) && keep(c)
    ensures var lines := Three(n, info, a, b, c);
            var served := ServedLines(lines, true, keep);
            && Entries(served) == [Entry([info], "segment/" + a), Entry([info], "segment/" + c)]
            && KeptIndices(Entries(lines), keep) == [0, 2]
            && MediaSequence(lines) == MediaSequence(served) == n
  {
    var lines := Three(n, info, a, b, c);
    ThreeEntries(n, info, a, b, c);
    ThreeSequences(n, info, a, b, c);
    KeptOfThree(Entry([info], a), Entry([info], b), Entry([info], c), keep);
    TrimmingKeepsEntries(lines, true, keep);
    ServedSequence(lines, true, keep, n, 0);
  }

  /** A gap in the kept files renumbers.  With b.ts missing, c.ts is number n + 2 in ffmpeg's playlist
      and second behind number n in the served one. */
  lemma GapRenumbers(n: int, files: Files, cutoff: int)
    requires 0 <= n && IsInt64(n) && "a.ts" in files && "b.ts" !in files && "c.ts" in files
    requires files["a.ts"] <= cutoff && files["c.ts"] <= cutoff
    ensures var lines, keep := Three(n, DURATION, "a.ts", "b.ts", "c.ts"), Keeper(true, files, cutoff);
            var served := ServedLines(lines, true, keep);
            && KeptIndices(Entries(lines), keep) == [0, 2]
            && |Entries(served)| == 2 && Entries(served)[1].uri == "segment/" + "c.ts"
            && MediaSequence(lines) == MediaSequence(served) == n
            && !SameNumbers(MediaSequence(served), n, [0, 2])
  {
    ExampleLines();
    GapInTheMiddle(n, DURATION, "a.ts", "b.ts", "c.ts", Keeper(true, files, cutoff));
    assert [0, 2][1] == 2;
  }
}

/** Reading the trimmed transmux playlist: its segments with what stands behind their EXTINF tags
    (section 4.3.2.1 of RFC 8216), and its media sequence number (section 4.3.3.2).  The tags in front
    of an EXTINF tag are the subject of TransmuxTags. */
module TransmuxReader {
  import opened Text
  import opened Decimal
  import opened Transmux

  /** A segment from its EXTINF tag on: that line and those behind it, and the URI. */
  datatype Entry = Entry(header: seq<string>, uri: string)

  datatype Reader = Reader(entries: seq<Entry>, header: seq<string>)

  predicate PlaylistLevel(line: string) {
    IsSequence(line) || TrimSpace(line) == EXTM3U
  }

  function ReadLine(r: Reader, line: string): Reader {
    if PlaylistLevel(line) then r
    else if IsExtInf(line) then r.(header := r.header + [line])
    else if IsHeader(line) then if r.header != [] then r.(header := r.header + [line]) else r
    else Reader(r.entries + [Entry(r.header, TrimSpace(line))], [])
  }

  function ReadLines(r: Reader, lines: seq<string>): Reader {
    if lines == [] then r else ReadLine(ReadLines(r, lines[..|lines| - 1]), lines[|lines| - 1])
  }

  function Entries(lines: seq<string>): seq<Entry> {
    ReadLines(Reader([], []), lines).entries
  }

  /** The entries that survive, under the names by which the relay serves them. */
  function Surviving(entries: seq<Entry>, keep: string -> bool): seq<Entry> {
    if entries == [] then []
    else
      var before, last := Surviving(entries[..|entries| - 1], keep), entries[|entries| - 1];
      if keep(last.uri) then before + [Entry(last.header, "segment/" + last.uri)] else before
  }

  // ---------------------------------------------------------------- scanning is reading

  function Visible(lines: seq<string>): seq<string> {
    if lines == [] then []
    else
      var before, last := Visible(lines[..|lines| - 1]), lines[|lines| - 1];
      if PlaylistLevel(last) then before else before + [last]
  }

  lemma VisibleSnoc(lines: seq<string>, line: string)
    ensures Visible(lines + [line]) == if PlaylistLevel(line) then Visible(lines) else Visible(lines) + [line]
  {
  }

  function SegmentsOf(items: seq<Item>): seq<Entry> {
    if items == [] then []
    else
      var before, item := SegmentsOf(items[..|items| - 1]), items[|items| - 1];
      if item.Segment? then before + [Entry(Visible(item.header), item.name)] else before
  }

  lemma SegmentsSnoc(items: seq<Item>, item: Item)
    ensures SegmentsOf(items + [item]) ==
            if item.Segment? then SegmentsOf(items) + [Entry(Visible(item.header), item.name)] else SegmentsOf(items)
  {
  }

  lemma ReadSnoc(r: Reader, lines: seq<string>, line: string)
    ensures ReadLines(r, lines + [line]) == ReadLine(ReadLines(r, lines), line)
  {
  }

  lemma {:induction false} ReadConcat(r: Reader, a: seq<string>, b: seq<string>)
    ensures ReadLines(r, a + b) == ReadLines(ReadLines(r, a), b)
  {
    if b == [] {
      assert a + b == a;
    } else {
      var c := b[..|b| - 1];
      assert a + b == a + c + [b[|b| - 1]];
      ReadSnoc(r, a + c, b[|b| - 1]);
      ReadConcat(r, a, c);
    }
  }

  /** The kinds of tag exclude one another. */
  lemma TagsDiffer(line: string)
    ensures IsExtInf(line) ==> !IsSequence(line) && TrimSpace(line) != EXTM3U
    ensures IsSequence(line) ==> TrimSpace(line) != EXTM3U
  {
    var t := TrimSpace(line);
    if IsExtInf(line) {
      assert t[4] == EXTINF[4];
    }
    if IsSequence(line) {
      assert t[4] == SEQUENCE[4];
    }
  }

  /** Headers that the scanner can hold back: none, or an EXTINF tag and what follows it. */
  ghost predicate SegmentHeader(lines: seq<string>) {
    && (lines != [] ==> IsExtInf(lines[0]))
    && forall i | 0 <= i < |lines| :: IsHeader(lines[i]) && !IsSequence(lines[i])
  }

  ghost predicate ReadableItem(item: Item) {
    match item
    case Line(line) => IsHeader(line) && !IsExtInf(line)
    case Segment(header, name) => SegmentHeader(header) && name != "" && name[0] != '#' && TrimSpace(name) == name
  }

  ghost predicate Readable(items: seq<Item>) {
    forall i | 0 <= i < |items| :: ReadableItem(items[i])
  }

  lemma OpeningLines()
    ensures ReadableItem(Line(EXTM3U)) && ReadableItem(Line(START))
    ensures PlaylistLevel(EXTM3U) && !IsSequence(EXTM3U) && !IsSequence(START)
  {
    PlainHeaders();
    NoPrefix(EXTINF, EXTM3U, 4);
    NoPrefix(SEQUENCE, EXTM3U, 4);
    NoPrefix(EXTINF, START, 4);
    NoPrefix(SEQUENCE, START, 7);
  }

  lemma NoPrefix(a: string, b: string, i: nat)
    requires i < |a| && i < |b| && a[i] != b[i]
    ensures !(a <= b)
  {
  }

  lemma {:induction false} ScanIsReadable(lines: seq<string>)
    ensures Readable(ScanPlaylist(lines).items) && SegmentHeader(ScanPlaylist(lines).pending)
  {
    if lines != [] {
      var before, line := lines[..|lines| - 1], lines[|lines| - 1];
      var s := ScanPlaylist(before);
      ScanIsReadable(before);
      NextIsReadable(s, line);
    }
  }

  lemma {:induction false} NextIsReadable(s: Scan, line: string)
    requires Readable(s.items) && SegmentHeader(s.pending)
    ensures var t := Next(s, KindOf(line, s.started), line); Readable(t.items) && SegmentHeader(t.pending)
  {
    HeaderKinds(line);
    TagsDiffer(line);
    match KindOf(line, s.started)
    case Opening => OpeningLines();
    case Uri => TrimmedTwice(line);
    case _ =>
  }

  lemma TrimmedTwice(line: string)
    ensures TrimSpace(TrimSpace(line)) == TrimSpace(line)
  {
    TrimSpaceTrims(line);
    TrimSpaceTrims(TrimSpace(line));
  }

  lemma {:induction false} VisibleOfHeader(lines: seq<string>)
    requires SegmentHeader(lines)
    ensures Visible(lines) == [] <==> lines == []
  {
    if lines != [] {
      var before := lines[..|lines| - 1];
      if before == [] {
        TagsDiffer(lines[0]);
        assert Visible(lines) == Visible(before) + [lines[0]];
      } else {
        assert before[0] == lines[0];
        VisibleOfHeader(before);
      }
    }
  }

  /** The scanner's segments are the reader's entries, each from its EXTINF tag on. */
  lemma {:induction false} ScanMatchesRead(lines: seq<string>)
    ensures var s, r := ScanPlaylist(lines), ReadLines(Reader([], []), lines);
            r.entries == SegmentsOf(s.items) && r.header == Visible(s.pending)
  {
    if lines != [] {
      var before, line := lines[..|lines| - 1], lines[|lines| - 1];
      var s := ScanPlaylist(before);
      ScanMatchesRead(before);
      ScanIsReadable(before);
      VisibleOfHeader(s.pending);
      TagsDiffer(line);
      HeaderKinds(line);
      VisibleSnoc(s.pending, line);
      NextSegments(s, KindOf(line, s.started), line);
    }
  }

  lemma NextSegments(s: Scan, kind: Kind, line: string)
    ensures SegmentsOf(Next(s, kind, line).items) ==
            if kind.Uri? then SegmentsOf(s.items) + [Entry(Visible(s.pending), TrimSpace(line))]
            else SegmentsOf(s.items)
  {
    match kind
    case Opening =>
      SegmentsSnoc(s.items, Line(EXTM3U));
      SegmentsSnoc(s.items + [Line(EXTM3U)], Line(START));
      assert s.items + [Line(EXTM3U), Line(START)] == s.items + [Line(EXTM3U)] + [Line(START)];
    case Uri =>
      SegmentsSnoc(s.items, Segment(s.pending, TrimSpace(line)));
    case _ =>
      SegmentsSnoc(s.items, Line(line));
  }

  // ---------------------------------------------------------------- reading the output

  lemma {:induction false} ReadHeader(entries: seq<Entry>, lines: seq<string>)
    requires SegmentHeader(lines)
    ensures ReadLines(Reader(entries, []), lines) == Reader(entries, Visible(lines))
  {
    if lines != [] {
      var before := lines[..|lines| - 1];
      assert SegmentHeader(before);
      ReadHeader(entries, before);
      VisibleOfHeader(before);
      TagsDiffer(lines[|lines| - 1]);
    }
  }

  lemma ReadItem(entries: seq<Entry>, item: Item, keep: string -> bool)
    requires ReadableItem(item)
    ensures ReadLines(Reader(entries, []), EmitItem(item, keep)) ==
            if Kept(item, keep) then Reader(entries + [Entry(Visible(item.header), "segment/" + item.name)], [])
            else Reader(entries, [])
  {
    var r := Reader(entries, []);
    match item
    case Line(line) =>
      ReadSnoc(r, [], line);
      assert [] + [line] == [line];
    case Segment(header, name) =>
      if keep(name) {
        SegmentLine(name);
        SegmentLineIsNoTag(name);
        ReadHeader(entries, header);
        ReadSnoc(r, header, "segment/" + name);
      }
  }

  lemma SegmentLineIsNoTag(name: string)
    requires name != "" && TrimSpace(name) == name
    ensures !PlaylistLevel("segment/" + name) && !IsExtInf("segment/" + name)
  {
    SegmentLine(name);
    HeaderKinds("segment/" + name);
  }

  lemma {:induction false} ReadOneMore(before: seq<Item>, item: Item, keep: string -> bool)
    requires ReadableItem(item)
    requires ReadLines(Reader([], []), Emit(before, keep)) == Reader(Surviving(SegmentsOf(before), keep), [])
    ensures ReadLines(Reader([], []), Emit(before + [item], keep))
            == Reader(Surviving(SegmentsOf(before + [item]), keep), [])
  {
    var entries := SegmentsOf(before);
    EmitSnoc(before, item, keep);
    ReadConcat(Reader([], []), Emit(before, keep), EmitItem(item, keep));
    ReadItem(Surviving(entries, keep), item, keep);
    SegmentsSnoc(before, item);
    if item.Segment? {
      SurvivingSnoc(entries, Entry(Visible(item.header), item.name), keep);
    }
  }

  lemma {:induction false} ReadEmitted(items: seq<Item>, keep: string -> bool)
    requires Readable(items)
    ensures ReadLines(Reader([], []), Emit(items, keep)) == Reader(Surviving(SegmentsOf(items), keep), [])
  {
    if items != [] {
      var before, item := items[..|items| - 1], items[|items| - 1];
      assert before + [item] == items;
      ReadEmitted(before, keep);
      ReadOneMore(before, item, keep);
    }
  }

  lemma SurvivingSnoc(entries: seq<Entry>, e: Entry, keep: string -> bool)
    ensures Surviving(entries + [e], keep) ==
            if keep(e.uri) then Surviving(entries, keep) + [Entry(e.header, "segment/" + e.uri)]
            else Surviving(entries, keep)
  {
  }

  // ---------------------------------------------------------------- the media sequence line

  /** A media sequence line gives its number, whatever number was read before it. */
  lemma NumberedLine(number: int, unset: int)
    requires IsInt64(number)
    ensures var line := SEQUENCE + FormatInt(number);
            IsSequence(line) && ScanSequence(line, unset) == number
  {
    var f := FormatInt(number);
    var line := SEQUENCE + f;
    assert f[|f| - 1] == line[|line| - 1];
    assert line[0] == '#';
    AlreadyTrimmed(line);
    assert line[|SEQUENCE|..] == f && f + "" == f;
    ScanFormatted(number, "", unset);
  }

  lemma PatchedLine(number: int)
    requires IsInt64(number)
    ensures var line := SEQUENCE + FormatInt(number);
            IsSequence(line) && ScanSequence(line, -1) == number
  {
    NumberedLine(number, -1);
  }

  lemma {:induction false} DigitsBefore(digits: string, rest: string)
    requires forall i | 0 <= i < |digits| :: IsDigit(digits[i])
    requires rest == "" || !IsDigit(rest[0])
    ensures LeadingDigits(digits + rest) == |digits|
  {
    if digits == "" {
      assert digits + rest == rest;
    } else {
      assert (digits + rest)[1..] == digits[1..] + rest;
      DigitsBefore(digits[1..], rest);
    }
  }

  lemma ScanUnsigned(digits: string, rest: string, unset: int)
    requires IsDigits(digits) && (rest == "" || !IsDigit(rest[0]))
    ensures ScanInt(digits + rest, unset) == var v := ParseInt(digits); if v.None? then unset else v.value
  {
    var t := digits + rest;
    assert IsDigit(t[0]) && LeadingSpace(t) == 0;
    DigitsBefore(digits, rest);
    assert t[..|digits|] == digits && "" + digits == digits;
  }

  lemma ScanNegative(digits: string, rest: string, unset: int)
    requires IsDigits(digits) && (rest == "" || !IsDigit(rest[0]))
    ensures ScanInt("-" + digits + rest, unset) == var v := ParseInt("-" + digits); if v.None? then unset else v.value
  {
    var t := "-" + digits + rest;
    assert t[0] == '-' && LeadingSpace(t) == 0;
    assert t[1..] == digits + rest;
    DigitsBefore(digits, rest);
    assert (digits + rest)[..|digits|] == digits && [t[0]] == "-";
  }

  /** Scanning a printed number gives it back, whatever stands behind it. */
  lemma ScanFormatted(number: int, rest: string, unset: int)
    requires IsInt64(number) && (rest == "" || !IsDigit(rest[0]))
    ensures ScanInt(FormatInt(number) + rest, unset) == number
  {
    var digits := FormatNat(if number < 0 then -number else number);
    ParseFormat(number);
    if number < 0 {
      ScanNegative(digits, rest, unset);
    } else {
      ScanUnsigned(digits, rest, unset);
    }
  }

  /** Without a digit, or a sign and a digit, behind white space nothing is scanned. */
  lemma ScanNothing(s: string, unset: int)
    requires var t := TrimLeft(s); t == "" || (!IsDigit(t[0]) && t[0] != '-' && t[0] != '+')
    ensures ScanInt(s, unset) == unset
  {
  }

  /** The media sequence lines of a playlist. */
  function Sequences(lines: seq<string>): seq<string> {
    if lines == [] then []
    else
      var before, last := Sequences(lines[..|lines| - 1]), lines[|lines| - 1];
      if IsSequence(last) then before + [last] else before
  }

  lemma {:induction false} SequencesConcat(a: seq<string>, b: seq<string>)
    ensures Sequences(a + b) == Sequences(a) + Sequences(b)
  {
    if b == [] {
      assert a + b == a;
    } else {
      var c := b[..|b| - 1];
      assert (a + b)[..|a + b| - 1] == a + c;
      SequencesConcat(a, c);
    }
  }

  lemma {:induction false} NoSequences(lines: seq<string>)
    requires forall i | 0 <= i < |lines| :: !IsSequence(lines[i])
    ensures Sequences(lines) == []
  {
    if lines != [] {
      NoSequences(lines[..|lines| - 1]);
    }
  }

  lemma OneSequence(line: string)
    ensures Sequences([line]) == if IsSequence(line) then [line] else []
  {
  }

  function ItemSequences(items: seq<Item>): seq<string> {
    if items == [] then []
    else
      var before, item := ItemSequences(items[..|items| - 1]), items[|items| - 1];
      if item.Line? && IsSequence(item.line) then before + [item.line] else before
  }

  lemma ItemSequencesSnoc(items: seq<Item>, item: Item)
    ensures ItemSequences(items + [item]) ==
            if item.Line? && IsSequence(item.line) then ItemSequences(items) + [item.line] else ItemSequences(items)
  {
  }

  function LastNumber(sequences: seq<string>): int {
    if sequences == [] then -1
    else ScanSequence(sequences[|sequences| - 1], LastNumber(sequences[..|sequences| - 1]))
  }

  lemma LastNumberSnoc(sequences: seq<string>, line: string)
    ensures LastNumber(sequences + [line]) == ScanSequence(line, LastNumber(sequences))
  {
  }

  /** Of several media sequence lines the last one that holds a number counts. */
  lemma LastNumberCounts(sequences: seq<string>, number: int, line: string)
    requires IsInt64(number)
    ensures LastNumber(sequences + [SEQUENCE + FormatInt(number)]) == number
    ensures IsSequence(line) && TrimSpace(line) == SEQUENCE ==> LastNumber(sequences + [line]) == LastNumber(sequences)
  {
    var unset := LastNumber(sequences);
    NumberedLine(number, unset);
    LastNumberSnoc(sequences, SEQUENCE + FormatInt(number));
    LastNumberSnoc(sequences, line);
    if TrimSpace(line) == SEQUENCE {
      assert SEQUENCE[|SEQUENCE|..] == "";
      ScanNothing("", unset);
    }
  }

  lemma {:induction false} ScanSequences(lines: seq<string>)
    ensures ItemSequences(ScanPlaylist(lines).items) == Sequences(lines)
    ensures ScanPlaylist(lines).sequence == LastNumber(Sequences(lines))
  {
    if lines != [] {
      var before, line := lines[..|lines| - 1], lines[|lines| - 1];
      ScanSequences(before);
      SequenceStep(ScanPlaylist(before), Sequences(before), line);
    }
  }

  lemma {:induction false} SequenceStep(s: Scan, sequences: seq<string>, line: string)
    requires ItemSequences(s.items) == sequences && s.sequence == LastNumber(sequences)
    ensures var t := Next(s, KindOf(line, s.started), line);
            var more := if IsSequence(line) then sequences + [line] else sequences;
            ItemSequences(t.items) == more && t.sequence == LastNumber(more)
  {
    TagsDiffer(line);
    LastNumberSnoc(sequences, line);
    NextSequences(s, KindOf(line, s.started), line);
  }

  lemma NextSequences(s: Scan, kind: Kind, line: string)
    requires kind == KindOf(line, s.started)
    ensures ItemSequences(Next(s, kind, line).items) ==
            if kind.Sequence? then ItemSequences(s.items) + [line] else ItemSequences(s.items)
  {
    match kind
    case Opening =>
      OpeningLines();
      ItemSequencesSnoc(s.items, Line(EXTM3U));
      ItemSequencesSnoc(s.items + [Line(EXTM3U)], Line(START));
      assert s.items + [Line(EXTM3U), Line(START)] == s.items + [Line(EXTM3U)] + [Line(START)];
    case Uri =>
      ItemSequencesSnoc(s.items, Segment(s.pending, TrimSpace(line)));
    case _ =>
      ItemSequencesSnoc(s.items, Line(line));
  }

  lemma {:induction false} EmittedSequences(items: seq<Item>, keep: string -> bool)
    requires Readable(items)
    ensures Sequences(Emit(items, keep)) == ItemSequences(items)
  {
    if items != [] {
      var before, item := items[..|items| - 1], items[|items| - 1];
      EmittedSequences(before, keep);
      SequencesConcat(Emit(before, keep), EmitItem(item, keep));
      match item
      case Line(line) =>
        OneSequence(line);
      case Segment(header, name) =>
        if keep(name) {
          SegmentLineIsNoTag(name);
          NoSequences(header + ["segment/" + name]);
        }
    }
  }

  /** Patching touches nothing but the first media sequence line. */
  lemma FirstLine(r: Reader, head: string, tail: seq<string>)
    ensures ReadLines(r, [head] + tail) == ReadLines(ReadLine(r, head), tail)
    ensures Sequences([head] + tail) == if IsSequence(head) then [head] + Sequences(tail) else Sequences(tail)
  {
    ReadConcat(r, [head], tail);
    SequencesConcat([head], tail);
    OneSequence(head);
    ReadSnoc(r, [], head);
    assert [] + [head] == [head] && [] + Sequences(tail) == Sequences(tail);
  }

  lemma {:induction false} PatchReads(r: Reader, lines: seq<string>, number: int)
    requires IsInt64(number)
    ensures ReadLines(r, PatchSequence(lines, number)) == ReadLines(r, lines)
    ensures Sequences(PatchSequence(lines, number)) ==
            if Sequences(lines) == [] then [] else [SEQUENCE + FormatInt(number)] + Sequences(lines)[1..]
    decreases |lines|
  {
    if lines != [] {
      var head, tail := lines[0], lines[1..];
      assert lines == [head] + tail;
      FirstLine(r, head, tail);
      if IsSequence(head) {
        PatchedLine(number);
        FirstLine(r, SEQUENCE + FormatInt(number), tail);
        assert ([head] + Sequences(tail))[1..] == Sequences(tail);
      } else {
        PatchReads(ReadLine(r, head), tail, number);
        FirstLine(r, head, PatchSequence(tail, number));
      }
    }
  }
}

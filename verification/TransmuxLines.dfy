/** The lines of a transmux playlist that belong to no segment, and what the loop makes of them. */
module TransmuxLines {
  import opened Text
  import opened Decimal
  import opened Transmux
  import opened TransmuxReader
  import opened TransmuxTrimming

  predicate IsOpening(line: string) {
    TrimSpace(line) == "#EXTM3U"
  }

  predicate HasOpening(lines: seq<string>) {
    exists i | 0 <= i < |lines| :: IsOpening(lines[i])
  }

  /** `open` says that an EXTINF tag is waiting for its URI. */
  datatype Own = Own(lines: seq<string>, open: bool, started: bool)

  /** A line belongs to a segment when it is an EXTINF tag or a URI, or stands between the two; the opening
      line and the media sequence lines never do. */
  function OwnLine(o: Own, line: string): Own {
    if !o.started && IsOpening(line) then o.(lines := o.lines + [line], started := true)
    else if IsSequence(line) then o.(lines := o.lines + [line])
    else if IsExtInf(line) then o.(open := true)
    else if !IsHeader(line) then o.(open := false)
    else if o.open then o
    else o.(lines := o.lines + [line])
  }

  const NOTHING := Own([], false, false)

  function OwnFrom(o: Own, lines: seq<string>): Own {
    if lines == [] then o else OwnLine(OwnFrom(o, lines[..|lines| - 1]), lines[|lines| - 1])
  }

  /** The lines that belong to no segment. */
  function OwnLines(lines: seq<string>): seq<string> {
    OwnFrom(NOTHING, lines).lines
  }

  /** The lines with the start tag behind the first opening line. */
  function WithStart(lines: seq<string>): seq<string> {
    if lines == [] then []
    else
      var before, last := lines[..|lines| - 1], lines[|lines| - 1];
      WithStart(before) + if IsOpening(last) && !HasOpening(before) then ["#EXTM3U", START] else [last]
  }

  lemma TagTexts()
    ensures EXTM3U == "#EXTM3U" && START == "#EXT-X-START:TIME-OFFSET=-6,PRECISE=YES"
    ensures EXTINF == "#EXTINF:" && SEQUENCE == "#EXT-X-MEDIA-SEQUENCE:"
  {
  }

  lemma OwnSnoc(o: Own, lines: seq<string>, line: string)
    ensures OwnFrom(o, lines + [line]) == OwnLine(OwnFrom(o, lines), line)
  {
    assert (lines + [line])[..|lines|] == lines;
  }

  lemma {:induction false} OwnConcat(o: Own, a: seq<string>, b: seq<string>)
    ensures OwnFrom(o, a + b) == OwnFrom(OwnFrom(o, a), b)
  {
    if b == [] {
      assert a + b == a;
    } else {
      var n := |b| - 1;
      assert a + b == a + b[..n] + [b[n]];
      OwnSnoc(o, a + b[..n], b[n]);
      OwnConcat(o, a, b[..n]);
    }
  }

  lemma WithStartSnoc(lines: seq<string>, line: string)
    ensures WithStart(lines + [line])
            == WithStart(lines) + if IsOpening(line) && !HasOpening(lines) then ["#EXTM3U", START] else [line]
    ensures HasOpening(lines + [line]) <==> HasOpening(lines) || IsOpening(line)
  {
    assert (lines + [line])[..|lines|] == lines && (lines + [line])[|lines|] == line;
    assert forall i | 0 <= i < |lines| :: (lines + [line])[i] == lines[i];
  }

  // ---------------------------------------------------------------- the loop's items

  function PlainLines(items: seq<Item>): seq<string> {
    if items == [] then []
    else
      var before, item := PlainLines(items[..|items| - 1]), items[|items| - 1];
      if item.Line? then before + [item.line] else before
  }

  lemma PlainSnoc(items: seq<Item>, item: Item)
    ensures PlainLines(items + [item]) == if item.Line? then PlainLines(items) + [item.line] else PlainLines(items)
  {
    assert (items + [item])[..|items|] == items;
  }

  lemma PlainOpening(items: seq<Item>)
    ensures PlainLines(items + [Line(EXTM3U), Line(START)]) == PlainLines(items) + [EXTM3U, START]
  {
    PlainSnoc(items, Line(EXTM3U));
    PlainSnoc(items + [Line(EXTM3U)], Line(START));
    assert items + [Line(EXTM3U), Line(START)] == items + [Line(EXTM3U)] + [Line(START)];
  }

  ghost predicate Corresponds(s: Scan, o: Own) {
    && (s.pending != [] <==> o.open)
    && s.started == o.started == HasOpening(o.lines)
    && PlainLines(s.items) == WithStart(o.lines)
  }

  lemma StepCorresponds(s: Scan, o: Own, line: string)
    requires Corresponds(s, o)
    ensures Corresponds(Next(s, KindOf(line, s.started), line), OwnLine(o, line))
  {
    TagsDiffer(line);
    HeaderKinds(line);
    WithStartSnoc(o.lines, line);
    PlainSnoc(s.items, Line(line));
    PlainSnoc(s.items, Segment(s.pending, TrimSpace(line)));
    PlainOpening(s.items);
  }

  /** The loop takes as playlist lines exactly those that belong to no segment. */
  lemma {:induction false} ScanCorresponds(lines: seq<string>)
    ensures Corresponds(ScanPlaylist(lines), OwnFrom(NOTHING, lines))
  {
    if lines != [] {
      var n := |lines| - 1;
      ScanCorresponds(lines[..n]);
      StepCorresponds(ScanPlaylist(lines[..n]), OwnFrom(NOTHING, lines[..n]), lines[n]);
    }
  }

  // ---------------------------------------------------------------- the output

  ghost predicate Opens(items: seq<Item>) {
    exists i | 0 <= i < |items| :: items[i] == Line(EXTM3U)
  }

  /** A segment's header holds an opening line only behind the opening of the playlist. */
  ghost predicate OpensFirst(items: seq<Item>) {
    forall i | 0 <= i < |items| && items[i].Segment? && HasOpening(items[i].header) :: Opens(items[..i])
  }

  lemma OpensSnoc(items: seq<Item>, item: Item)
    ensures Opens(items + [item]) <==> Opens(items) || item == Line(EXTM3U)
    ensures OpensFirst(items + [item])
            <==> OpensFirst(items) && (item.Segment? && HasOpening(item.header) ==> Opens(items))
  {
    var longer := items + [item];
    assert longer[|items|] == item && longer[..|items|] == items;
    assert forall i | 0 <= i < |items| :: longer[i] == items[i] && longer[..i] == items[..i];
  }

  lemma StepOpensFirst(s: Scan, line: string)
    requires OpensFirst(s.items) && (HasOpening(s.pending) ==> s.started) && (s.started ==> Opens(s.items))
    ensures var t := Next(s, KindOf(line, s.started), line);
            OpensFirst(t.items) && (HasOpening(t.pending) ==> t.started) && (t.started ==> Opens(t.items))
  {
    TagsDiffer(line);
    WithStartSnoc(s.pending, line);
    OpensSnoc(s.items, Line(line));
    OpensSnoc(s.items, Segment(s.pending, TrimSpace(line)));
    OpensSnoc(s.items, Line(EXTM3U));
    OpensSnoc(s.items + [Line(EXTM3U)], Line(START));
    assert s.items + [Line(EXTM3U), Line(START)] == s.items + [Line(EXTM3U)] + [Line(START)];
  }

  lemma {:induction false} ScanOpensFirst(lines: seq<string>)
    ensures var s := ScanPlaylist(lines);
            OpensFirst(s.items) && (HasOpening(s.pending) ==> s.started) && (s.started ==> Opens(s.items))
  {
    if lines != [] {
      ScanOpensFirst(lines[..|lines| - 1]);
      StepOpensFirst(ScanPlaylist(lines[..|lines| - 1]), lines[|lines| - 1]);
    }
  }

  lemma {:induction false} OwnOfHeader(o: Own, header: seq<string>)
    requires SegmentHeader(header) && !o.open && (HasOpening(header) ==> o.started)
    ensures OwnFrom(o, header) == o.(open := header != [])
  {
    if header != [] {
      var n := |header| - 1;
      assert SegmentHeader(header[..n]);
      assert HasOpening(header[..n]) ==> HasOpening(header);
      OwnOfHeader(o, header[..n]);
      TagsDiffer(header[n]);
    }
  }

  lemma OwnOfItem(o: Own, item: Item, keep: string -> bool)
    requires ReadableItem(item) && !o.open && (item.Segment? && HasOpening(item.header) ==> o.started)
    ensures OwnFrom(o, EmitItem(item, keep)) ==
            if item.Line? then o.(lines := o.lines + [item.line], started := o.started || IsOpening(item.line)) else o
  {
    match item
    case Line(line) =>
      OwnSnoc(o, [], line);
      assert [] + [line] == [line];
    case Segment(header, name) =>
      if keep(name) {
        SegmentLine(name);
        HeaderKinds("segment/" + name);
        OwnOfHeader(o, header);
        OwnSnoc(o, header, "segment/" + name);
      }
  }

  lemma {:induction false} OwnOfEmitted(items: seq<Item>, keep: string -> bool)
    requires Readable(items) && OpensFirst(items)
    ensures var o := OwnFrom(NOTHING, Emit(items, keep));
            o.lines == PlainLines(items) && !o.open && (Opens(items) ==> o.started)
  {
    if items != [] {
      var before, item := items[..|items| - 1], items[|items| - 1];
      assert before + [item] == items;
      OpensSnoc(before, item);
      OwnOfEmitted(before, keep);
      EmitSnoc(before, item, keep);
      PlainSnoc(before, item);
      PlainHeaders();
      OwnConcat(NOTHING, Emit(before, keep), EmitItem(item, keep));
      OwnOfItem(OwnFrom(NOTHING, Emit(before, keep)), item, keep);
    }
  }

  // ---------------------------------------------------------------- the repaired number

  lemma OwnHead(o: Own, head: string, tail: seq<string>)
    ensures OwnFrom(o, [head] + tail) == OwnFrom(OwnLine(o, head), tail)
  {
    OwnConcat(o, [head], tail);
    OwnSnoc(o, [], head);
    assert [] + [head] == [head];
  }

  lemma OwnLineGrows(before: seq<string>, o: Own, line: string)
    ensures OwnLine(o.(lines := before + o.lines), line)
            == OwnLine(o, line).(lines := before + OwnLine(o, line).lines)
  {
  }

  lemma {:induction false} OwnGrows(before: seq<string>, o: Own, lines: seq<string>)
    ensures OwnFrom(o.(lines := before + o.lines), lines)
            == OwnFrom(o, lines).(lines := before + OwnFrom(o, lines).lines)
  {
    if lines != [] {
      var n := |lines| - 1;
      OwnGrows(before, o, lines[..n]);
      OwnLineGrows(before, OwnFrom(o, lines[..n]), lines[n]);
    }
  }

  /** The first line, and the others read in the state that it leaves. */
  lemma OwnCons(o: Own, head: string, tail: seq<string>)
    ensures var next := OwnLine(o, head);
            OwnFrom(o, [head] + tail).lines == next.lines + OwnFrom(next.(lines := []), tail).lines
  {
    var next := OwnLine(o, head);
    OwnHead(o, head, tail);
    OwnGrows(next.lines, next.(lines := []), tail);
    assert next.lines + [] == next.lines;
  }

  lemma PatchPassesOver(a: seq<string>, b: seq<string>, number: int)
    requires |a| <= 1 && (a != [] ==> !IsSequence(a[0]))
    ensures PatchSequence(a + b, number) == a + PatchSequence(b, number)
  {
    if a == [] {
      assert a + b == b && a + PatchSequence(b, number) == PatchSequence(b, number);
    } else {
      assert (a + b)[1..] == b;
    }
  }

  lemma SequenceIsOwn(o: Own, line: string)
    requires IsSequence(line)
    ensures OwnLine(o, line) == o.(lines := o.lines + [line])
  {
    TagsDiffer(line);
  }

  lemma FirstPatched(head: string, tail: seq<string>, number: int)
    requires IsSequence(head)
    ensures PatchSequence([] + [head] + tail, number) == [] + [SEQUENCE + FormatInt(number)] + tail
  {
    assert ([] + [head] + tail)[1..] == tail;
  }

  lemma PatchFirst(o: Own, head: string, tail: seq<string>, line: string, number: int)
    requires o.lines == [] && IsSequence(head) && IsSequence(line) && line == SEQUENCE + FormatInt(number)
    ensures OwnFrom(o, [line] + tail).lines == PatchSequence(OwnFrom(o, [head] + tail).lines, number)
  {
    OwnCons(o, head, tail);
    OwnCons(o, line, tail);
    SequenceIsOwn(o, head);
    SequenceIsOwn(o, line);
    FirstPatched(head, OwnFrom(o, tail).lines, number);
  }

  lemma PatchLater(o: Own, head: string, tail: seq<string>, patched: seq<string>, number: int)
    requires o.lines == [] && !IsSequence(head)
    requires var next := OwnLine(o, head).(lines := []);
             OwnFrom(next, patched).lines == PatchSequence(OwnFrom(next, tail).lines, number)
    ensures OwnFrom(o, [head] + patched).lines == PatchSequence(OwnFrom(o, [head] + tail).lines, number)
  {
    var next := OwnLine(o, head);
    OwnCons(o, head, tail);
    OwnCons(o, head, patched);
    PatchPassesOver(next.lines, OwnFrom(next.(lines := []), tail).lines, number);
  }

  /** Repairing the number does to the playlist's own lines what it does to all lines. */
  lemma {:induction false} OwnPatched(o: Own, lines: seq<string>, number: int)
    requires IsInt64(number) && o.lines == []
    ensures OwnFrom(o, PatchSequence(lines, number)).lines == PatchSequence(OwnFrom(o, lines).lines, number)
    decreases |lines|
  {
    if lines != [] {
      var head, tail := lines[0], lines[1..];
      assert lines == [head] + tail;
      if IsSequence(head) {
        PatchedLine(number);
        PatchFirst(o, head, tail, SEQUENCE + FormatInt(number), number);
      } else {
        OwnPatched(OwnLine(o, head).(lines := []), tail, number);
        PatchLater(o, head, tail, PatchSequence(tail, number), number);
      }
    }
  }

  /** Number of segments in front of the first one that is kept. */
  function Gone(entries: seq<Entry>, keep: string -> bool): nat {
    var idx := KeptIndices(entries, keep);
    if idx != [] then idx[0] else |entries|
  }

  lemma EmittedOwn(lines: seq<string>, keep: string -> bool)
    ensures OwnLines(Emit(ScanPlaylist(lines).items, keep)) == WithStart(OwnLines(lines))
  {
    ScanCorresponds(lines);
    ScanIsReadable(lines);
    ScanOpensFirst(lines);
    OwnOfEmitted(ScanPlaylist(lines).items, keep);
  }

  lemma DroppedAreGone(lines: seq<string>, keep: string -> bool)
    ensures DroppedFromHead(ScanPlaylist(lines).items, keep) == Gone(Entries(lines), keep)
  {
    ScanMatchesRead(lines);
    HeadIndex(ScanPlaylist(lines).items, keep);
  }

  /** What becomes of the playlist's own lines when `gone` segments are missing in front. */
  function Renumbered(own: seq<string>, syncOn: bool, last: int, gone: nat): seq<string> {
    if syncOn && last >= 0 && gone > 0 then PatchSequence(own, WrapInt64(last + gone)) else own
  }

  lemma RepairedOwn(out: seq<string>, syncOn: bool, sequence: int, dropped: nat)
    ensures OwnLines(Repaired(out, syncOn, sequence, dropped)) == Renumbered(OwnLines(out), syncOn, sequence, dropped)
  {
    OwnPatched(NOTHING, out, WrapInt64(sequence + dropped));
  }

  lemma RepairedOutput(lines: seq<string>, syncOn: bool, keep: string -> bool, s: Scan, own: seq<string>, last: int,
                       gone: nat)
    requires s == ScanPlaylist(lines) && s.sequence == last && DroppedFromHead(s.items, keep) == gone
    requires OwnLines(Emit(s.items, keep)) == own
    ensures OwnLines(ServedLines(lines, syncOn, keep)) == Renumbered(own, syncOn, last, gone)
  {
    RepairedOwn(Emit(s.items, keep), syncOn, last, gone);
  }

  /** For every text: of the lines that belong to no segment none is lost, added or moved, but for the start
      tag behind the first opening line; and only where segments are missing in front, the first media
      sequence line gets the number of the first segment that is left. */
  lemma {:induction false} OwnLinesStay(lines: seq<string>, syncOn: bool, keep: string -> bool)
    ensures OwnLines(ServedLines(lines, syncOn, keep))
            == Renumbered(WithStart(OwnLines(lines)), syncOn, LastNumber(Sequences(lines)), Gone(Entries(lines), keep))
  {
    var s := ScanPlaylist(lines);
    EmittedOwn(lines, keep);
    DroppedAreGone(lines, keep);
    ScanSequences(lines);
    RepairedOutput(lines, syncOn, keep, s, WithStart(OwnLines(lines)), LastNumber(Sequences(lines)),
                   Gone(Entries(lines), keep));
  }
}

/** What trimming does to the tags of the segments as a player assigns them.

    Section 4.3.2 of RFC 8216 gives a segment tag to the next URI line, wherever it stands before it.
    The relay's loop drops a segment with the lines from its EXTINF tag on, so a tag in front of the
    EXTINF tag outlives its segment and goes to the next one.  (The tags of sections 4.3.2.4 and 4.3.2.5
    also apply to the segments that follow; here they count for the next segment like the others.) */
module TransmuxTags {
  import opened Text
  import opened Decimal
  import opened Transmux
  import opened TransmuxReader
  import opened TransmuxTrimming

  const DISCONTINUITY := "#EXT-X-DISCONTINUITY"
  const BYTERANGE := "#EXT-X-BYTERANGE:"
  const KEY := "#EXT-X-KEY:"
  const MAP := "#EXT-X-MAP:"
  const DATE_TIME := "#EXT-X-PROGRAM-DATE-TIME:"
  const DATERANGE := "#EXT-X-DATERANGE:"

  /** The media segment tags of section 4.3.2. */
  predicate IsSegmentTag(line: string) {
    var t := TrimSpace(line);
    IsExtInf(line) || t == DISCONTINUITY || BYTERANGE <= t || KEY <= t || MAP <= t || DATE_TIME <= t || DATERANGE <= t
  }

  /** A segment with all of its tags. */
  datatype Tagged = Tagged(tags: seq<string>, uri: string)

  datatype Player = Player(segments: seq<Tagged>, tags: seq<string>)

  const FRESH := Player([], [])

  function PlayLine(p: Player, line: string): Player {
    if !IsHeader(line) then Player(p.segments + [Tagged(p.tags, TrimSpace(line))], [])
    else if IsSegmentTag(line) then p.(tags := p.tags + [line])
    else p
  }

  function Play(p: Player, lines: seq<string>): Player {
    if lines == [] then p else PlayLine(Play(p, lines[..|lines| - 1]), lines[|lines| - 1])
  }

  /** The segments of a playlist with their tags. */
  function Segments(lines: seq<string>): seq<Tagged> {
    Play(FRESH, lines).segments
  }

  /** What a player should see: the kept segments as they were. */
  function KeptSegments(segments: seq<Tagged>, keep: string -> bool): seq<Tagged> {
    if segments == [] then []
    else
      var before, last := KeptSegments(segments[..|segments| - 1], keep), segments[|segments| - 1];
      if keep(last.uri) then before + [Tagged(last.tags, "segment/" + last.uri)] else before
  }

  /** The tags of a segment in front of its first EXTINF tag. */
  function Leading(tags: seq<string>): seq<string> {
    if tags == [] || IsExtInf(tags[0]) then [] else [tags[0]] + Leading(tags[1..])
  }

  /** What a player does see: a kept segment inherits the leading tags of the segments dropped since
      the last kept one.  The second component is what the next kept segment would inherit. */
  function Inherited(segments: seq<Tagged>, keep: string -> bool): Player {
    if segments == [] then FRESH
    else
      var p, last := Inherited(segments[..|segments| - 1], keep), segments[|segments| - 1];
      if keep(last.uri) then Player(p.segments + [Tagged(p.tags + last.tags, "segment/" + last.uri)], [])
      else p.(tags := p.tags + Leading(last.tags))
  }

  // ---------------------------------------------------------------- folds

  lemma PlaySnoc(p: Player, lines: seq<string>, line: string)
    ensures Play(p, lines + [line]) == PlayLine(Play(p, lines), line)
  {
    assert (lines + [line])[..|lines|] == lines;
  }

  lemma {:induction false} PlayConcat(p: Player, a: seq<string>, b: seq<string>)
    ensures Play(p, a + b) == Play(Play(p, a), b)
  {
    if b == [] {
      assert a + b == a;
    } else {
      var n := |b| - 1;
      assert a + b == a + b[..n] + [b[n]];
      PlaySnoc(p, a + b[..n], b[n]);
      PlayConcat(p, a, b[..n]);
    }
  }

  function TagsIn(lines: seq<string>): seq<string> {
    if lines == [] then []
    else
      var before, last := TagsIn(lines[..|lines| - 1]), lines[|lines| - 1];
      if IsSegmentTag(last) then before + [last] else before
  }

  lemma TagsSnoc(lines: seq<string>, line: string)
    ensures TagsIn(lines + [line]) == if IsSegmentTag(line) then TagsIn(lines) + [line] else TagsIn(lines)
  {
    assert (lines + [line])[..|lines|] == lines;
  }

  lemma {:induction false} PlayHeaders(p: Player, lines: seq<string>)
    requires AllHeaders(lines)
    ensures Play(p, lines) == p.(tags := p.tags + TagsIn(lines))
  {
    if lines == [] {
      assert p.tags + [] == p.tags;
    } else {
      var before, last := lines[..|lines| - 1], lines[|lines| - 1];
      PlayHeaders(p, before);
      assert p.tags + (TagsIn(before) + [last]) == p.tags + TagsIn(before) + [last];
    }
  }

  // ---------------------------------------------------------------- the loop's items, played

  function PlayItem(p: Player, item: Item): Player {
    match item
    case Line(line) => if IsSegmentTag(line) then p.(tags := p.tags + [line]) else p
    case Segment(header, name) => Player(p.segments + [Tagged(p.tags + TagsIn(header), name)], [])
  }

  function PlayItems(items: seq<Item>): Player {
    if items == [] then FRESH else PlayItem(PlayItems(items[..|items| - 1]), items[|items| - 1])
  }

  lemma ItemsSnoc(items: seq<Item>, item: Item)
    ensures PlayItems(items + [item]) == PlayItem(PlayItems(items), item)
  {
    assert (items + [item])[..|items|] == items;
  }

  lemma NoSegmentTags(line: string)
    ensures IsSequence(line) || TrimSpace(line) == EXTM3U ==> !IsSegmentTag(line)
    ensures IsSegmentTag(line) ==> IsHeader(line)
  {
    var t := TrimSpace(line);
    if IsSequence(line) {
      assert t[7] == 'M' && t[8] == 'E';
      TagsDiffer(line);
    }
    if t == EXTM3U {
      TagsDiffer(line);
    }
    if IsExtInf(line) {
      HeaderKinds(line);
    }
  }

  lemma OpeningIsNoTag()
    ensures !IsSegmentTag(EXTM3U) && !IsSegmentTag(START)
  {
    PlainHeaders();
    NoSegmentTags(EXTM3U);
    OpeningLines();
    StartIsTrimmed();
    assert START[7] == 'S';
  }

  lemma StartIsTrimmed()
    ensures TrimSpace(START) == START
  {
    AlreadyTrimmed(START);
  }

  /** The loop's items with the lines it still holds back carry the tags as a player assigns them. */
  lemma {:induction false} ScanMatchesPlay(lines: seq<string>)
    ensures var s, p := ScanPlaylist(lines), Play(FRESH, lines);
            p.segments == PlayItems(s.items).segments && p.tags == PlayItems(s.items).tags + TagsIn(s.pending)
  {
    if lines != [] {
      var before, line := lines[..|lines| - 1], lines[|lines| - 1];
      var s := ScanPlaylist(before);
      ScanMatchesPlay(before);
      NextPlays(s, KindOf(line, s.started), line, Play(FRESH, before));
    }
  }

  lemma NextPlays(s: Scan, kind: Kind, line: string, p: Player)
    requires kind == KindOf(line, s.started)
    requires p.segments == PlayItems(s.items).segments && p.tags == PlayItems(s.items).tags + TagsIn(s.pending)
    ensures var t, q := Next(s, kind, line), PlayLine(p, line);
            q.segments == PlayItems(t.items).segments && q.tags == PlayItems(t.items).tags + TagsIn(t.pending)
  {
    var items := PlayItems(s.items);
    NoSegmentTags(line);
    HeaderKinds(line);
    match kind
    case Opening =>
      OpeningIsNoTag();
      ItemsSnoc(s.items, Line(EXTM3U));
      ItemsSnoc(s.items + [Line(EXTM3U)], Line(START));
      assert s.items + [Line(EXTM3U), Line(START)] == s.items + [Line(EXTM3U)] + [Line(START)];
    case Sequence =>
      ItemsSnoc(s.items, Line(line));
    case ExtInf =>
      TagsSnoc(s.pending, line);
      assert items.tags + (TagsIn(s.pending) + [line]) == items.tags + TagsIn(s.pending) + [line];
    case Header =>
      if s.pending != [] {
        TagsSnoc(s.pending, line);
        assert items.tags + (TagsIn(s.pending) + [line]) == items.tags + TagsIn(s.pending) + [line];
      } else {
        ItemsSnoc(s.items, Line(line));
        assert items.tags + [] == items.tags;
        assert items.tags + [line] + [] == items.tags + [line];
      }
    case Uri =>
      ItemsSnoc(s.items, Segment(s.pending, TrimSpace(line)));
  }

  // ---------------------------------------------------------------- the output, played

  /** One item of the output: a dropped segment is none. */
  function PlayServed(p: Player, item: Item, keep: string -> bool): Player {
    if item.Line? then PlayItem(p, item)
    else if keep(item.name) then PlayItem(p, Segment(item.header, "segment/" + item.name))
    else p
  }

  function PlayKept(items: seq<Item>, keep: string -> bool): Player {
    if items == [] then FRESH else PlayServed(PlayKept(items[..|items| - 1], keep), items[|items| - 1], keep)
  }

  lemma PlayEmittedItem(p: Player, item: Item, keep: string -> bool)
    requires WellFormed([item])
    ensures Play(p, EmitItem(item, keep)) == PlayServed(p, item, keep)
  {
    assert [item][0] == item;
    match item
    case Line(line) =>
      PlaySnoc(p, [], line);
      assert [] + [line] == [line];
    case Segment(header, name) =>
      if keep(name) {
        SegmentLine(name);
        PlayHeaders(p, header);
        PlaySnoc(p, header, "segment/" + name);
      }
  }

  lemma {:induction false} PlayEmitted(items: seq<Item>, keep: string -> bool)
    requires WellFormed(items)
    ensures Play(FRESH, Emit(items, keep)) == PlayKept(items, keep)
  {
    if items != [] {
      var before, item := items[..|items| - 1], items[|items| - 1];
      assert forall i | 0 <= i < |before| :: before[i] == items[i];
      PlayEmitted(before, keep);
      PlayConcat(FRESH, Emit(before, keep), EmitItem(item, keep));
      assert [item][0] == items[|items| - 1];
      PlayEmittedItem(Play(FRESH, Emit(before, keep)), item, keep);
    }
  }

  lemma FirstPlayed(p: Player, head: string, tail: seq<string>)
    ensures Play(p, [head] + tail) == Play(PlayLine(p, head), tail)
  {
    PlayConcat(p, [head], tail);
    PlaySnoc(p, [], head);
    assert [] + [head] == [head];
  }

  /** Repairing the number changes no tag of any segment. */
  lemma {:induction false} PlayPatched(p: Player, lines: seq<string>, number: int)
    requires IsInt64(number)
    ensures Play(p, PatchSequence(lines, number)) == Play(p, lines)
    decreases |lines|
  {
    if lines != [] {
      var head, tail := lines[0], lines[1..];
      assert lines == [head] + tail;
      FirstPlayed(p, head, tail);
      if IsSequence(head) {
        var patched := SEQUENCE + FormatInt(number);
        PatchedLine(number);
        NoSegmentTags(head);
        NoSegmentTags(patched);
        HeaderKinds(head);
        HeaderKinds(patched);
        FirstPlayed(p, patched, tail);
      } else {
        PlayPatched(PlayLine(p, head), tail, number);
        FirstPlayed(p, head, PatchSequence(tail, number));
      }
    }
  }

  // ---------------------------------------------------------------- what is inherited

  lemma {:induction false} LeadingOf(lead: seq<string>, rest: seq<string>)
    requires forall i | 0 <= i < |lead| :: !IsExtInf(lead[i])
    requires rest != [] ==> IsExtInf(rest[0])
    ensures Leading(lead + rest) == lead
  {
    if lead == [] {
      assert lead + rest == rest;
    } else {
      assert (lead + rest)[1..] == lead[1..] + rest;
      LeadingOf(lead[1..], rest);
    }
  }

  lemma {:induction false} HeaderTags(lines: seq<string>)
    requires SegmentHeader(lines)
    ensures TagsIn(lines) != [] ==> IsExtInf(TagsIn(lines)[0])
    ensures lines != [] ==> TagsIn(lines) != []
  {
    if lines != [] {
      var before := lines[..|lines| - 1];
      if before != [] {
        assert before[0] == lines[0];
      }
      HeaderTags(before);
    }
  }

  ghost predicate NoExtInf(tags: seq<string>) {
    forall i | 0 <= i < |tags| :: !IsExtInf(tags[i])
  }

  lemma InheritOne(segments: seq<Tagged>, last: Tagged, keep: string -> bool)
    ensures var p := Inherited(segments, keep);
            Inherited(segments + [last], keep) ==
            if keep(last.uri) then Player(p.segments + [Tagged(p.tags + last.tags, "segment/" + last.uri)], [])
            else p.(tags := p.tags + Leading(last.tags))
  {
    assert (segments + [last])[..|segments|] == segments;
  }

  /** `q` is what is served of the segments and tags in `p`. */
  ghost predicate Inherits(p: Player, q: Player, keep: string -> bool) {
    var r := Inherited(p.segments, keep);
    NoExtInf(p.tags) && q.segments == r.segments && q.tags == r.tags + p.tags
  }

  lemma LineInherits(p: Player, q: Player, line: string, keep: string -> bool)
    requires Inherits(p, q, keep) && !IsExtInf(line)
    ensures Inherits(PlayItem(p, Line(line)), PlayItem(q, Line(line)), keep)
  {
    var r := Inherited(p.segments, keep);
    assert r.tags + p.tags + [line] == r.tags + (p.tags + [line]);
  }

  lemma SegmentTags(p: Player, header: seq<string>)
    requires NoExtInf(p.tags) && SegmentHeader(header)
    ensures Leading(p.tags + TagsIn(header)) == p.tags
  {
    HeaderTags(header);
    LeadingOf(p.tags, TagsIn(header));
  }

  lemma KeptSegmentInherits(p: Player, q: Player, header: seq<string>, name: string, keep: string -> bool)
    requires Inherits(p, q, keep) && keep(name)
    ensures Inherits(PlayItem(p, Segment(header, name)), PlayItem(q, Segment(header, "segment/" + name)), keep)
  {
    var own, r := TagsIn(header), Inherited(p.segments, keep);
    InheritOne(p.segments, Tagged(p.tags + own, name), keep);
    assert r.tags + p.tags + own == r.tags + (p.tags + own);
  }

  lemma DroppedSegmentInherits(p: Player, q: Player, header: seq<string>, name: string, keep: string -> bool)
    requires Inherits(p, q, keep) && SegmentHeader(header) && !keep(name)
    ensures Inherits(PlayItem(p, Segment(header, name)), q, keep)
  {
    SegmentTags(p, header);
    InheritOne(p.segments, Tagged(p.tags + TagsIn(header), name), keep);
    assert q.tags + [] == q.tags;
  }

  /** The items played without the dropped segments inherit as described. */
  lemma {:induction false} KeptInherit(items: seq<Item>, keep: string -> bool)
    requires Readable(items)
    ensures Inherits(PlayItems(items), PlayKept(items, keep), keep)
  {
    if items != [] {
      var before, item := items[..|items| - 1], items[|items| - 1];
      assert forall i | 0 <= i < |before| :: before[i] == items[i];
      KeptInherit(before, keep);
      assert ReadableItem(item);
      var p, q := PlayItems(before), PlayKept(before, keep);
      if item.Line? {
        LineInherits(p, q, item.line, keep);
      } else if keep(item.name) {
        KeptSegmentInherits(p, q, item.header, item.name, keep);
      } else {
        DroppedSegmentInherits(p, q, item.header, item.name, keep);
      }
    }
  }

  lemma RepairedPlays(out: seq<string>, syncOn: bool, sequence: int, dropped: nat)
    ensures Play(FRESH, Repaired(out, syncOn, sequence, dropped)) == Play(FRESH, out)
  {
    if dropped > 0 {
      PlayPatched(FRESH, out, Printed(sequence, dropped));
    }
  }

  /** Exactly what trimming does to the tags, for every text: the kept segments come in order, and
      each keeps all of its own tags, behind those that it inherits from the segments dropped right in
      front of it. */
  lemma TrimmingInherits(lines: seq<string>, syncOn: bool, keep: string -> bool)
    ensures Segments(ServedLines(lines, syncOn, keep)) == Inherited(Segments(lines), keep).segments
  {
    var s := ScanPlaylist(lines);
    ScanMatchesPlay(lines);
    ScanIsWellFormed(lines);
    ScanIsReadable(lines);
    PlayEmitted(s.items, keep);
    KeptInherit(s.items, keep);
    RepairedPlays(Emit(s.items, keep), syncOn, s.sequence, DroppedFromHead(s.items, keep));
  }

  // ---------------------------------------------------------------- when the tags are right

  /** No segment that is dropped in front of a kept one has a tag before its EXTINF tag. */
  ghost predicate NothingToInherit(segments: seq<Tagged>, keep: string -> bool) {
    forall i, j | 0 <= i < j < |segments| && !keep(segments[i].uri) && keep(segments[j].uri) ::
      Leading(segments[i].tags) == []
  }

  /** The same for the segments behind the last kept one. */
  ghost predicate NothingCarried(segments: seq<Tagged>, keep: string -> bool, m: nat) {
    forall i | m <= i < |segments| && !keep(segments[i].uri) :: Leading(segments[i].tags) == []
  }

  /** Position behind the last kept segment. */
  function BehindKept(segments: seq<Tagged>, keep: string -> bool): (m: nat)
    ensures m <= |segments|
    ensures forall i | m <= i < |segments| :: !keep(segments[i].uri)
    ensures m > 0 ==> keep(segments[m - 1].uri)
  {
    if segments == [] then 0
    else if keep(segments[|segments| - 1].uri) then |segments|
    else
      var m := BehindKept(segments[..|segments| - 1], keep);
      assert forall i | 0 <= i < |segments| - 1 :: segments[..|segments| - 1][i] == segments[i];
      m
  }

  lemma {:induction false} CarriedTags(segments: seq<Tagged>, keep: string -> bool)
    ensures Inherited(segments, keep).tags == [] <==> NothingCarried(segments, keep, BehindKept(segments, keep))
  {
    if segments != [] {
      var n := |segments| - 1;
      var before := segments[..n];
      assert forall i | 0 <= i < n :: before[i] == segments[i];
      CarriedTags(before, keep);
    }
  }

  lemma InheritSnoc(before: seq<Tagged>, last: Tagged, keep: string -> bool)
    ensures NothingToInherit(before + [last], keep)
            <==> NothingToInherit(before, keep)
                 && (keep(last.uri) ==> forall i | 0 <= i < |before| && !keep(before[i].uri) ::
                    Leading(before[i].tags) == [])
  {
    var segments := before + [last];
    assert segments[|before|] == last;
    assert forall i | 0 <= i < |before| :: segments[i] == before[i];
  }

  lemma {:induction false} SameCount(segments: seq<Tagged>, keep: string -> bool)
    ensures |Inherited(segments, keep).segments| == |KeptSegments(segments, keep)|
  {
    if segments != [] {
      SameCount(segments[..|segments| - 1], keep);
    }
  }

  lemma {:induction false} RightWhenNothingInherited(segments: seq<Tagged>, keep: string -> bool)
    ensures Inherited(segments, keep).segments == KeptSegments(segments, keep) <==> NothingToInherit(segments, keep)
  {
    if segments != [] {
      var n := |segments| - 1;
      var before, last := segments[..n], segments[n];
      assert before + [last] == segments;
      RightWhenNothingInherited(before, keep);
      InheritSnoc(before, last, keep);
      if keep(last.uri) {
        SameCount(before, keep);
        CarriedTags(before, keep);
        if NothingToInherit(before, keep) {
          CarriedOrEarlier(before, keep);
        }
        LastDecides(Inherited(before, keep).segments, KeptSegments(before, keep), Inherited(before, keep).tags, last);
      }
    }
  }

  /** With nothing inherited so far, the dropped segments with leading tags are behind the last kept one. */
  lemma CarriedOrEarlier(segments: seq<Tagged>, keep: string -> bool)
    requires NothingToInherit(segments, keep)
    ensures NothingCarried(segments, keep, BehindKept(segments, keep)) <==> NothingCarried(segments, keep, 0)
  {
    var m := BehindKept(segments, keep);
    forall i | 0 <= i < m && !keep(segments[i].uri)
      ensures Leading(segments[i].tags) == []
    {
      assert keep(segments[m - 1].uri);
    }
  }

  lemma LastDecides(a: seq<Tagged>, b: seq<Tagged>, carried: seq<string>, last: Tagged)
    requires |a| == |b|
    ensures a + [Tagged(carried + last.tags, "segment/" + last.uri)] == b + [Tagged(last.tags, "segment/" + last.uri)]
            <==> a == b && carried == []
  {
    var x, y := Tagged(carried + last.tags, "segment/" + last.uri), Tagged(last.tags, "segment/" + last.uri);
    if a + [x] == b + [y] {
      assert (a + [x])[..|a|] == a && (b + [y])[..|b|] == b;
      assert (a + [x])[|a|] == x && (b + [y])[|b|] == y;
      assert |x.tags| == |carried| + |last.tags|;
    }
    if carried == [] {
      assert carried + last.tags == last.tags;
    }
  }

  /** Section 4.3.2 of RFC 8216: a player sees the kept segments with exactly the tags that they had
      exactly when no segment dropped in front of a kept one has a tag before its EXTINF tag. */
  lemma TagsKept(lines: seq<string>, syncOn: bool, keep: string -> bool)
    ensures Segments(ServedLines(lines, syncOn, keep)) == KeptSegments(Segments(lines), keep)
            <==> NothingToInherit(Segments(lines), keep)
  {
    TrimmingInherits(lines, syncOn, keep);
    RightWhenNothingInherited(Segments(lines), keep);
  }
}

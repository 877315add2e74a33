/** readTransmuxPlaylist of relay/manager.go: trimming ffmpeg's playlist to the segments that every
    synchronised viewer may see, and repairing its media sequence number. */
module Transmux {
  import opened Text
  import opened Decimal

  const EXTM3U := "#EXTM3U"
  // In two parts: the verifier compares long literals character by character.
  const START := "#EXT-X-START" + ":TIME-OFFSET=-6,PRECISE=YES"
  const EXTINF := "#EXTINF:"
  const SEQUENCE := "#EXT-X-MEDIA-SEQUENCE:"
  const SECOND: int := 1_000_000_000

  // ---------------------------------------------------------------- the cutoff

  /** Modification times of the files in the channel's directory. */
  type Files = map<string, int>

  /** Segments modified after this moment are withheld.  Times are in nanoseconds. */
  function Cutoff(now: int, syncDelaySeconds: int): int {
    var delay := WrapInt64(syncDelaySeconds * SECOND);
    now - now % SECOND - (if delay <= 0 then 8 * SECOND else delay)
  }

  function Keeper(syncOn: bool, files: Files, cutoff: int): string -> bool {
    name => !syncOn || (name in files && files[name] <= cutoff)
  }

  // ---------------------------------------------------------------- lines

  predicate IsHeader(line: string) {
    TrimSpace(line) == "" || TrimSpace(line)[0] == '#'
  }

  predicate IsSequence(line: string) {
    SEQUENCE <= TrimSpace(line)
  }

  predicate IsExtInf(line: string) {
    EXTINF <= TrimSpace(line)
  }

  function LeadingDigits(s: string): (n: nat)
    ensures n <= |s| && forall i | 0 <= i < n :: IsDigit(s[i])
    ensures n < |s| ==> !IsDigit(s[n])
  {
    if s == "" || !IsDigit(s[0]) then 0 else 1 + LeadingDigits(s[1..])
  }

  /** The verb %d of fmt.Sscanf into an int64; `unset` is what the variable held before. */
  function ScanInt(s: string, unset: int): int {
    var t := TrimLeft(s);
    var signed := t != "" && (t[0] == '-' || t[0] == '+');
    var digits := if signed then t[1..] else t;
    var n := LeadingDigits(digits);
    var value := if n == 0 then None else ParseInt((if signed then [t[0]] else "") + digits[..n]);
    if value.None? then unset else value.value
  }

  function ScanSequence(line: string, unset: int): int {
    if IsSequence(line) then ScanInt(TrimSpace(line)[|SEQUENCE|..], unset) else unset
  }

  datatype Kind = Opening | Sequence | ExtInf | Header | Uri

  /** The branch that the loop takes for a line, tested in this order. */
  function KindOf(line: string, started: bool): Kind {
    if !started && TrimSpace(line) == EXTM3U then Opening
    else if IsSequence(line) then Sequence
    else if IsExtInf(line) then ExtInf
    else if IsHeader(line) then Header
    else Uri
  }

  // ---------------------------------------------------------------- the structure of a playlist

  /** A playlist-level line, or a segment with the lines that belong to it. */
  datatype Item = Line(line: string) | Segment(header: seq<string>, name: string)

  datatype Scan = Scan(items: seq<Item>, pending: seq<string>, started: bool, sequence: int)

  function Next(s: Scan, kind: Kind, line: string): Scan {
    match kind
    case Opening => s.(items := s.items + [Line(EXTM3U), Line(START)], started := true)
    case Sequence => s.(items := s.items + [Line(line)], sequence := ScanSequence(line, s.sequence))
    case ExtInf => s.(pending := s.pending + [line])
    case Header =>
      if s.pending != [] then s.(pending := s.pending + [line]) else s.(items := s.items + [Line(line)])
    case Uri => s.(items := s.items + [Segment(s.pending, TrimSpace(line))], pending := [])
  }

  function ScanPlaylist(lines: seq<string>): Scan {
    if lines == [] then Scan([], [], false, -1)
    else
      var s, line := ScanPlaylist(lines[..|lines| - 1]), lines[|lines| - 1];
      Next(s, KindOf(line, s.started), line)
  }

  function EmitItem(item: Item, keep: string -> bool): seq<string> {
    match item
    case Line(line) => [line]
    case Segment(header, name) => if keep(name) then header + ["segment/" + name] else []
  }

  function Emit(items: seq<Item>, keep: string -> bool): seq<string> {
    if items == [] then []
    else Emit(items[..|items| - 1], keep) + EmitItem(items[|items| - 1], keep)
  }

  predicate Kept(item: Item, keep: string -> bool) {
    item.Segment? && keep(item.name)
  }

  predicate SomeKept(items: seq<Item>, keep: string -> bool) {
    exists i | 0 <= i < |items| :: Kept(items[i], keep)
  }

  /** Number of segments in front of the first one that is kept. */
  function DroppedFromHead(items: seq<Item>, keep: string -> bool): nat {
    if items == [] then 0
    else
      var before := items[..|items| - 1];
      var item := items[|items| - 1];
      if item.Segment? && !keep(item.name) && !SomeKept(before, keep) then DroppedFromHead(before, keep) + 1
      else DroppedFromHead(before, keep)
  }

  /** Replaces the number in the first media sequence line. */
  function PatchSequence(lines: seq<string>, number: int): seq<string> {
    if lines == [] then []
    else if IsSequence(lines[0]) then [SEQUENCE + FormatInt(number)] + lines[1..]
    else [lines[0]] + PatchSequence(lines[1..], number)
  }

  /** The number of the first segment when `dropped` segments in front of it have gone. */
  function Printed(sequence: int, dropped: nat): int {
    if dropped > 0 then WrapInt64(sequence + dropped) else sequence
  }

  function Repaired(out: seq<string>, syncOn: bool, sequence: int, dropped: nat): seq<string> {
    if syncOn && sequence >= 0 && dropped > 0 then PatchSequence(out, Printed(sequence, dropped)) else out
  }

  /** The lines of the served playlist. */
  function ServedLines(lines: seq<string>, syncOn: bool, keep: string -> bool): seq<string> {
    var s := ScanPlaylist(lines);
    Repaired(Emit(s.items, keep), syncOn, s.sequence, DroppedFromHead(s.items, keep))
  }

  // ---------------------------------------------------------------- the loop

  ghost predicate AllHeaders(lines: seq<string>) {
    forall i | 0 <= i < |lines| :: IsHeader(lines[i])
  }

  method AllOutputAreHeaders(lines: seq<string>) returns (all: bool)
    ensures all <==> AllHeaders(lines)
    ensures lines == [] ==> all
  {
    for k := 0 to |lines|
      invariant forall i | 0 <= i < k :: IsHeader(lines[i])
    {
      var trimmed := TrimSpace(lines[k]);
      if trimmed == "" {
        continue;
      }
      if !("#" <= trimmed) {
        return false;
      }
    }
    return true;
  }

  ghost predicate WellFormed(items: seq<Item>) {
    forall i | 0 <= i < |items| ::
      match items[i]
      case Line(line) => IsHeader(line)
      case Segment(header, name) => AllHeaders(header) && name != "" && name[0] != '#' && TrimSpace(name) == name
  }

  lemma {:induction false} ScanIsWellFormed(lines: seq<string>)
    ensures WellFormed(ScanPlaylist(lines).items) && AllHeaders(ScanPlaylist(lines).pending)
  {
    if lines != [] {
      var line := lines[|lines| - 1];
      ScanIsWellFormed(lines[..|lines| - 1]);
      TrimSpaceTrims(line);
      TrimSpaceTrims(TrimSpace(line));
      PlainHeaders();
      HeaderKinds(line);
    }
  }

  lemma PlainHeaders()
    ensures IsHeader(EXTM3U) && IsHeader(START)
    ensures TrimSpace(EXTM3U) == EXTM3U
  {
    AlreadyTrimmed(EXTM3U);
    assert START[0] == '#';
    TrimRightKeepsFirst(START);
  }

  lemma AlreadyTrimmed(s: string)
    requires LeadingSpace(s) == 0 && TrailingSpace(s) == 0
    ensures TrimSpace(s) == s
  {
  }

  lemma HeaderKinds(line: string)
    ensures IsSequence(line) || IsExtInf(line) || TrimSpace(line) == EXTM3U ==> IsHeader(line)
  {
  }

  lemma SegmentLine(name: string)
    requires name != "" && TrimSpace(name) == name
    ensures TrimSpace("segment/" + name) == "segment/" + name
    ensures !IsHeader("segment/" + name)
  {
    TrimSpaceTrims(name);
    var l := "segment/" + name;
    assert l[0] == 's' && l[1] == 'e';
    assert l[|l| - 1] == name[|name| - 1];
    assert l[7] == '/';
    assert |name| >= 2 ==> l[|l| - 2] == name[|name| - 2];
    assert |name| >= 3 ==> l[|l| - 3] == name[|name| - 3];
    assert |name| == 1 ==> l[|l| - 2] == '/';
    assert |name| == 2 ==> l[|l| - 3] == '/';
    TrimSpaceTrims(l);
  }

  lemma SomeKeptSnoc(before: seq<Item>, item: Item, keep: string -> bool)
    ensures SomeKept(before + [item], keep) <==> SomeKept(before, keep) || Kept(item, keep)
  {
    var items := before + [item];
    assert items[|before|] == item;
    assert forall i | 0 <= i < |before| :: items[i] == before[i];
  }

  lemma HeadersConcat(a: seq<string>, b: seq<string>)
    ensures AllHeaders(a + b) <==> AllHeaders(a) && AllHeaders(b)
  {
    assert forall i | 0 <= i < |a| :: a[i] == (a + b)[i];
    assert forall i | 0 <= i < |b| :: b[i] == (a + b)[|a| + i];
  }

  lemma ItemHeaders(item: Item, keep: string -> bool)
    requires WellFormed([item])
    ensures AllHeaders(EmitItem(item, keep)) <==> !Kept(item, keep)
  {
    assert [item][0] == item;
    if Kept(item, keep) {
      SegmentLine(item.name);
      assert EmitItem(item, keep)[|item.header|] == "segment/" + item.name;
    }
  }

  /** The test that the loop makes for every dropped segment. */
  lemma {:induction false} HeadersUntilKept(items: seq<Item>, keep: string -> bool)
    requires WellFormed(items)
    ensures AllHeaders(Emit(items, keep)) <==> !SomeKept(items, keep)
  {
    if items != [] {
      var before, item := items[..|items| - 1], items[|items| - 1];
      assert before + [item] == items;
      assert forall i | 0 <= i < |before| :: before[i] == items[i];
      HeadersUntilKept(before, keep);
      ItemHeaders(item, keep);
      HeadersConcat(Emit(before, keep), EmitItem(item, keep));
      SomeKeptSnoc(before, item, keep);
    }
  }

  lemma ScanSnoc(lines: seq<string>, i: nat)
    requires i < |lines|
    ensures var s := ScanPlaylist(lines[..i]);
            ScanPlaylist(lines[..i + 1]) == Next(s, KindOf(lines[i], s.started), lines[i])
  {
    assert lines[..i + 1][..i] == lines[..i];
  }

  lemma EmitSnoc(items: seq<Item>, item: Item, keep: string -> bool)
    ensures Emit(items + [item], keep) == Emit(items, keep) + EmitItem(item, keep)
    ensures DroppedFromHead(items + [item], keep)
            == DroppedFromHead(items, keep)
               + if item.Segment? && !keep(item.name) && !SomeKept(items, keep) then 1 else 0
  {
  }

  /** What one line adds to the output and to the count of dropped segments. */
  lemma NextEmits(s: Scan, kind: Kind, line: string, keep: string -> bool)
    ensures var items, name := Next(s, kind, line).items, TrimSpace(line);
            var out, dropped := Emit(s.items, keep), DroppedFromHead(s.items, keep);
            match kind
            case Opening => Emit(items, keep) == out + [EXTM3U, START] && DroppedFromHead(items, keep) == dropped
            case Sequence => Emit(items, keep) == out + [line] && DroppedFromHead(items, keep) == dropped
            case ExtInf => items == s.items
            case Header =>
              if s.pending != [] then items == s.items
              else Emit(items, keep) == out + [line] && DroppedFromHead(items, keep) == dropped
            case Uri =>
              && Emit(items, keep) == out + (if keep(name) then s.pending + ["segment/" + name] else [])
              && DroppedFromHead(items, keep) == dropped + if keep(name) || SomeKept(s.items, keep) then 0 else 1
  {
    match kind
    case Opening =>
      EmitSnoc(s.items, Line(EXTM3U), keep);
      EmitSnoc(s.items + [Line(EXTM3U)], Line(START), keep);
      assert s.items + [Line(EXTM3U), Line(START)] == s.items + [Line(EXTM3U)] + [Line(START)];
    case Uri =>
      EmitSnoc(s.items, Segment(s.pending, TrimSpace(line)), keep);
    case _ =>
      EmitSnoc(s.items, Line(line), keep);
  }

  lemma {:induction false} HeadersTest(lines: seq<string>, keep: string -> bool)
    ensures AllHeaders(Emit(ScanPlaylist(lines).items, keep)) <==> !SomeKept(ScanPlaylist(lines).items, keep)
  {
    ScanIsWellFormed(lines);
    HeadersUntilKept(ScanPlaylist(lines).items, keep);
  }

  datatype Read = Playlist(text: string) | NotReady

  method ReadTransmuxPlaylist(data: Option<string>, syncOn: bool, syncDelaySeconds: int, now: int, files: Files)
    returns (r: Read)
    ensures data.None? ==> r == NotReady
    ensures data.Some? ==>
              var keep := Keeper(syncOn, files, Cutoff(now, syncDelaySeconds));
              r == Playlist(Join(ServedLines(Split(data.value, '\n'), syncOn, keep), '\n'))
  {
    if data.None? {
      return NotReady;
    }
    var rawLines := Split(data.value, '\n');
    var out, mediaSequence, droppedFromHead := TrimLines(rawLines, syncOn, Cutoff(now, syncDelaySeconds), files);
    out := Repair(out, syncOn, mediaSequence, droppedFromHead);
    r := Playlist(Join(out, '\n'));
  }

  /** The branch for a segment's URI: it is dropped with the header held back for it, or written out
      behind that header. */
  method SegmentLines(trimmed: string, syncOn: bool, cutoff: int, files: Files,
                      out: seq<string>, pendingHeader: seq<string>, droppedFromHead: nat)
    returns (longer: seq<string>, dropped: nat)
    ensures var keep := Keeper(syncOn, files, cutoff)(trimmed);
            && longer == out + (if keep then pendingHeader + ["segment/" + trimmed] else [])
            && dropped == droppedFromHead + if keep || !AllHeaders(out) then 0 else 1
  {
    longer, dropped := out, droppedFromHead;
    if syncOn && (trimmed !in files || files[trimmed] > cutoff) {
      var all := AllOutputAreHeaders(out);
      if |out| == 0 || all {
        dropped := dropped + 1;
      }
    } else {
      if |pendingHeader| > 0 {
        longer := longer + pendingHeader;
      }
      longer := longer + ["segment/" + trimmed];
    }
  }

  /** The loop computes the structural description above in one pass over the lines. */
  method TrimLines(rawLines: seq<string>, syncOn: bool, cutoff: int, files: Files)
    returns (out: seq<string>, mediaSequence: int, droppedFromHead: nat)
    ensures var s, keep := ScanPlaylist(rawLines), Keeper(syncOn, files, cutoff);
            && out == Emit(s.items, keep)
            && mediaSequence == s.sequence
            && droppedFromHead == DroppedFromHead(s.items, keep)
  {
    ghost var keep := Keeper(syncOn, files, cutoff);
    out, mediaSequence, droppedFromHead := [], -1, 0;
    var pendingHeader: seq<string> := [];
    var startInjected := false;
    ghost var s := ScanPlaylist([]);
    assert rawLines[..0] == [];
    var index := 0;
    while index < |rawLines|
      invariant 0 <= index <= |rawLines| && s == ScanPlaylist(rawLines[..index])
      invariant out == Emit(s.items, keep) && pendingHeader == s.pending && startInjected == s.started
      invariant mediaSequence == s.sequence && droppedFromHead == DroppedFromHead(s.items, keep)
    {
      var line := rawLines[index];
      var trimmed := TrimSpace(line);
      ScanSnoc(rawLines, index);
      HeadersTest(rawLines[..index], keep);
      var kind := KindOf(line, startInjected);
      NextEmits(s, kind, line, keep);
      s := Next(s, kind, line);
      index := index + 1;
      match kind {
        case Opening =>
          out := out + [EXTM3U, START];
          startInjected := true;
        case Sequence =>
          mediaSequence := ScanSequence(line, mediaSequence);
          out := out + [line];
        case ExtInf =>
          pendingHeader := pendingHeader + [line];
        case Header =>
          if |pendingHeader| > 0 {
            pendingHeader := pendingHeader + [line];
          } else {
            out := out + [line];
          }
        case Uri =>
          out, droppedFromHead := SegmentLines(trimmed, syncOn, cutoff, files, out, pendingHeader, droppedFromHead);
          pendingHeader := [];
      }
    }
    assert rawLines[..|rawLines|] == rawLines;
  }

  /** Adjusts the number only when segments were trimmed from the front. */
  method Repair(lines: seq<string>, syncOn: bool, sequence: int, dropped: nat) returns (out: seq<string>)
    ensures out == Repaired(lines, syncOn, sequence, dropped)
  {
    out := lines;
    if syncOn && sequence >= 0 && dropped > 0 {
      var number := Printed(sequence, dropped);
      for i := 0 to |lines|
        invariant out == lines
        invariant forall k | 0 <= k < i :: !IsSequence(lines[k])
      {
        if IsSequence(lines[i]) {
          PatchAt(lines, i, number);
          out := out[i := SEQUENCE + FormatInt(number)];
          return;
        }
      }
      PatchNothing(lines, number);
    }
  }

  lemma {:induction false} PatchAt(lines: seq<string>, i: nat, number: int)
    requires i < |lines| && IsSequence(lines[i]) && forall k | 0 <= k < i :: !IsSequence(lines[k])
    ensures PatchSequence(lines, number) == lines[i := SEQUENCE + FormatInt(number)]
  {
    if i > 0 {
      PatchAt(lines[1..], i - 1, number);
    }
  }

  lemma {:induction false} PatchNothing(lines: seq<string>, number: int)
    requires forall k | 0 <= k < |lines| :: !IsSequence(lines[k])
    ensures PatchSequence(lines, number) == lines
  {
    if lines != [] {
      PatchNothing(lines[1..], number);
    }
  }
}

/** What trimming preserves: the surviving segments from their EXTINF tags on, their numbers, and the
    view of every other viewer. */
module TransmuxTrimming {
  import opened Text
  import opened Decimal
  import opened Transmux
  import opened TransmuxReader

  lemma RepairedReads(out: seq<string>, syncOn: bool, sequence: int, dropped: nat)
    ensures Entries(Repaired(out, syncOn, sequence, dropped)) == Entries(out)
  {
    if dropped > 0 {
      PatchReads(Reader([], []), out, Printed(sequence, dropped));
    }
  }

  lemma {:induction false} PatchedSequence(out: seq<string>, line: string, number: int)
    requires Sequences(out) == [line] && IsInt64(number)
    ensures MediaSequence(PatchSequence(out, number)) == number
  {
    PatchReads(Reader([], []), out, number);
    PatchedLine(number);
  }

  lemma RepairedSequence(out: seq<string>, line: string, syncOn: bool, sequence: int, dropped: nat)
    requires Sequences(out) == [line] && sequence == ScanSequence(line, -1) && sequence >= 0
    requires syncOn || dropped == 0
    ensures MediaSequence(Repaired(out, syncOn, sequence, dropped)) == Printed(sequence, dropped)
  {
    if dropped > 0 {
      PatchedSequence(out, line, Printed(sequence, dropped));
    }
  }

  /** Section 4.3.2.1 of RFC 8216, for every text: every segment that survives keeps its own EXTINF tag
      and the lines behind it, in order, and of a dropped segment its EXTINF tag and the lines behind it
      are gone.  Tags in front of the EXTINF tag do stay; TransmuxTags says what becomes of them. */
  lemma TrimmingKeepsEntries(lines: seq<string>, syncOn: bool, keep: string -> bool)
    ensures Entries(ServedLines(lines, syncOn, keep)) == Surviving(Entries(lines), keep)
  {
    var s := ScanPlaylist(lines);
    ScanMatchesRead(lines);
    ScanIsReadable(lines);
    ReadEmitted(s.items, keep);
    RepairedReads(Emit(s.items, keep), syncOn, s.sequence, DroppedFromHead(s.items, keep));
  }

  // ---------------------------------------------------------------- indices

  /** Positions in the source playlist of the segments that are kept. */
  function KeptIndices(entries: seq<Entry>, keep: string -> bool): seq<nat> {
    if entries == [] then []
    else
      var n := |entries| - 1;
      var before := KeptIndices(entries[..n], keep);
      if keep(entries[n].uri) then before + [n] else before
  }

  ghost predicate Increasing(idx: seq<nat>) {
    forall i, j | 0 <= i < j < |idx| :: idx[i] < idx[j]
  }

  /** The j-th surviving entry is the source's entry at the j-th kept position, renamed; the kept
      positions are listed once each, in order. */
  lemma {:induction false} SurvivingAt(entries: seq<Entry>, keep: string -> bool)
    ensures var idx := KeptIndices(entries, keep);
            && Increasing(idx)
            && (forall i :: i in idx <==> 0 <= i < |entries| && keep(entries[i].uri))
            && (forall j | 0 <= j < |idx| :: idx[j] < |entries|)
            && |Surviving(entries, keep)| == |idx|
            && (forall j | 0 <= j < |idx| ::
                  Surviving(entries, keep)[j] == Entry(entries[idx[j]].header, "segment/" + entries[idx[j]].uri))
  {
    if entries != [] {
      var n := |entries| - 1;
      var before := entries[..n];
      SurvivingAt(before, keep);
      forall i
        ensures i in KeptIndices(entries, keep) <==> 0 <= i < |entries| && keep(entries[i].uri)
      {
        if 0 <= i < n {
          assert before[i] == entries[i];
        }
      }
      assert forall j | 0 <= j < |KeptIndices(before, keep)| ::
        KeptIndices(before, keep)[j] in KeptIndices(before, keep);
    }
  }

  lemma {:induction false} HeadIndex(items: seq<Item>, keep: string -> bool)
    ensures var idx := KeptIndices(SegmentsOf(items), keep);
            && (SomeKept(items, keep) <==> idx != [])
            && DroppedFromHead(items, keep) == if idx != [] then idx[0] else |SegmentsOf(items)|
  {
    if items != [] {
      var before, item := items[..|items| - 1], items[|items| - 1];
      HeadIndex(before, keep);
      assert before + [item] == items;
      SegmentsSnoc(before, item);
      SomeKeptSnoc(before, item, keep);
      if item.Segment? {
        var entries, e := SegmentsOf(before), Entry(Visible(item.header), item.name);
        assert (entries + [e])[..|entries|] == entries;
      }
    }
  }

  // ---------------------------------------------------------------- numbers

  /** The number of the first segment; 0 when the tag is absent. */
  function MediaSequence(lines: seq<string>): int {
    if Sequences(lines) == [] then 0 else ScanSequence(Sequences(lines)[0], -1)
  }

  lemma SingleSequence(lines: seq<string>)
    requires |Sequences(lines)| == 1
    ensures ScanPlaylist(lines).sequence == MediaSequence(lines)
    ensures IsInt64(MediaSequence(lines))
  {
    ScanSequences(lines);
    var line := Sequences(lines)[0];
    assert Sequences(lines) == [] + [line];
    LastNumberSnoc([], line);
    ScanIsInt64(line);
  }

  lemma {:induction false} ServedSequence(lines: seq<string>, syncOn: bool, keep: string -> bool, n: int, a: nat)
    requires |Sequences(lines)| == 1 && n == MediaSequence(lines) >= 0
    requires KeptIndices(Entries(lines), keep) != [] && a == KeptIndices(Entries(lines), keep)[0]
    requires syncOn || a == 0
    ensures MediaSequence(ServedLines(lines, syncOn, keep)) == Printed(n, a)
  {
    var s := ScanPlaylist(lines);
    var dropped := DroppedFromHead(s.items, keep);
    SingleSequence(lines);
    assert dropped == a by {
      ScanMatchesRead(lines);
      HeadIndex(s.items, keep);
    }
    assert Sequences(Emit(s.items, keep)) == Sequences(lines) by {
      ScanIsReadable(lines);
      ScanSequences(lines);
      EmittedSequences(s.items, keep);
    }
    RepairedSequence(Emit(s.items, keep), Sequences(lines)[0], syncOn, s.sequence, dropped);
  }

  lemma ScanIsInt64(line: string)
    ensures IsInt64(ScanSequence(line, -1))
  {
  }

  ghost predicate Contiguous(idx: seq<nat>) {
    forall j | 0 <= j < |idx| :: idx[j] == idx[0] + j
  }

  /** Counted from `served`, every surviving segment has the number it had counted from `n`. */
  ghost predicate SameNumbers(served: int, n: int, idx: seq<nat>) {
    forall j | 0 <= j < |idx| :: served + j == n + idx[j]
  }

  /** Section 4.3.3.2 of RFC 8216: a segment must keep its number.  With one media sequence tag and
      something kept, every surviving segment does so exactly when the kept segments are contiguous
      and the repaired number fits an int64. */
  lemma {:induction false} NumbersKept(lines: seq<string>, syncOn: bool, files: Files, cutoff: int, idx: seq<nat>,
                                       n: int, served: int)
    requires |Sequences(lines)| == 1 && n == MediaSequence(lines) >= 0
    requires idx == KeptIndices(Entries(lines), Keeper(syncOn, files, cutoff)) && idx != []
    requires served == MediaSequence(ServedLines(lines, syncOn, Keeper(syncOn, files, cutoff)))
    ensures SameNumbers(served, n, idx) <==> Contiguous(idx) && IsInt64(n + idx[0])
  {
    var keep := Keeper(syncOn, files, cutoff);
    if !syncOn {
      FirstKept(Entries(lines), keep);
    }
    ServedSequence(lines, syncOn, keep, n, idx[0]);
    SingleSequence(lines);
    NumbersAgree(served, n, idx);
  }

  lemma FirstKept(entries: seq<Entry>, keep: string -> bool)
    requires KeptIndices(entries, keep) != [] && forall name :: keep(name)
    ensures KeptIndices(entries, keep)[0] == 0
  {
  }

  lemma NumbersAgree(served: int, n: int, idx: seq<nat>)
    requires idx != [] && IsInt64(n) && served == Printed(n, idx[0])
    ensures SameNumbers(served, n, idx) <==> Contiguous(idx) && IsInt64(n + idx[0])
  {
  }

  // ---------------------------------------------------------------- one playlist, two polls

  /** ffmpeg finishes its files in playlist order. */
  ghost predicate Ascending(entries: seq<Entry>, files: Files) {
    forall i, j | 0 <= i < j < |entries| && entries[i].uri in files && entries[j].uri in files ::
      files[entries[i].uri] <= files[entries[j].uri]
  }

  /** ffmpeg deletes its files from the head of the playlist. */
  ghost predicate MissingAtHead(entries: seq<Entry>, files: Files) {
    forall i, j | 0 <= i < j < |entries| && entries[i].uri in files :: entries[j].uri in files
  }

  lemma {:induction false} SameWhileKept(entries: seq<Entry>, files: Files, c: int, c': int)
    requires forall i | 0 <= i < |entries| && entries[i].uri in files :: files[entries[i].uri] <= c
    requires c <= c'
    ensures Surviving(entries, Keeper(true, files, c)) == Surviving(entries, Keeper(true, files, c'))
    ensures KeptIndices(entries, Keeper(true, files, c)) == KeptIndices(entries, Keeper(true, files, c'))
  {
    if entries != [] {
      var before := entries[..|entries| - 1];
      assert forall i | 0 <= i < |before| :: before[i] == entries[i];
      SameWhileKept(before, files, c, c');
    }
  }

  lemma {:induction false} LaterCutoffExtends(entries: seq<Entry>, files: Files, c: int, c': int)
    requires Ascending(entries, files) && c <= c'
    ensures Surviving(entries, Keeper(true, files, c)) <= Surviving(entries, Keeper(true, files, c'))
    ensures KeptIndices(entries, Keeper(true, files, c)) <= KeptIndices(entries, Keeper(true, files, c'))
  {
    if entries != [] {
      var n := |entries| - 1;
      var before := entries[..n];
      assert forall i | 0 <= i < n :: before[i] == entries[i];
      LaterCutoffExtends(before, files, c, c');
      if Keeper(true, files, c)(entries[n].uri) {
        forall i | 0 <= i < n && before[i].uri in files
          ensures files[before[i].uri] <= c
        {
          assert files[entries[i].uri] <= files[entries[n].uri];
        }
        SameWhileKept(before, files, c, c');
      }
    }
  }

  lemma {:induction false} LaterPoll(lines: seq<string>, files: Files, c: int, c': int, first: seq<string>,
                                     second: seq<string>)
    requires c <= c' && Ascending(Entries(lines), files)
    requires first == ServedLines(lines, true, Keeper(true, files, c))
    requires second == ServedLines(lines, true, Keeper(true, files, c'))
    ensures Entries(first) <= Entries(second)
    ensures |Sequences(lines)| == 1 && MediaSequence(lines) >= 0 && Entries(first) != [] ==>
              MediaSequence(first) == MediaSequence(second)
  {
    var keep, keep' := Keeper(true, files, c), Keeper(true, files, c');
    LaterCutoffExtends(Entries(lines), files, c, c');
    TrimmingKeepsEntries(lines, true, keep);
    TrimmingKeepsEntries(lines, true, keep');
    SurvivingAt(Entries(lines), keep);
    if |Sequences(lines)| == 1 && MediaSequence(lines) >= 0 && Entries(first) != [] {
      var a := KeptIndices(Entries(lines), keep)[0];
      assert a == KeptIndices(Entries(lines), keep')[0];
      ServedSequence(lines, true, keep, MediaSequence(lines), a);
      ServedSequence(lines, true, keep', MediaSequence(lines), a);
    }
  }

  /** With the directory as it is, a later poll sees what an earlier one saw and possibly more
      segments behind it, with one media sequence tag under the same numbers; within one second both
      see the same. */
  lemma {:induction false} PollsAgree(lines: seq<string>, files: Files, delay: int, now: int, later: int,
                   first: seq<string>, second: seq<string>)
    requires now <= later && Ascending(Entries(lines), files)
    requires first == ServedLines(lines, true, Keeper(true, files, Cutoff(now, delay)))
    requires second == ServedLines(lines, true, Keeper(true, files, Cutoff(later, delay)))
    ensures Entries(first) <= Entries(second)
    ensures |Sequences(lines)| == 1 && MediaSequence(lines) >= 0 && Entries(first) != [] ==>
              MediaSequence(first) == MediaSequence(second)
    ensures now / 1_000_000_000 == later / 1_000_000_000 ==> first == second
  {
    CutoffGrows(now, later, delay);
    LaterPoll(lines, files, Cutoff(now, delay), Cutoff(later, delay), first, second);
  }

  lemma CutoffGrows(now: int, later: int, delay: int)
    requires now <= later
    ensures Cutoff(now, delay) <= Cutoff(later, delay)
    ensures now / 1_000_000_000 == later / 1_000_000_000 ==> Cutoff(now, delay) == Cutoff(later, delay)
    ensures Cutoff(now, delay) < now
  {
  }

  /** The delay that viewers are kept behind: a segment that is served is at least that old, and one
      that is a second older still is served; without its file none is.  With sync off all are served.
      Times are in nanoseconds, the delay in seconds. */
  lemma DelayIsKept(files: Files, name: string, now: int, delay: int)
    requires IsInt64(delay * 1_000_000_000)
    ensures var seconds, served := if delay <= 0 then 8 else delay, Keeper(true, files, Cutoff(now, delay))(name);
            && (name !in files ==> !served)
            && (name in files && served ==> now - files[name] >= seconds * 1_000_000_000)
            && (name in files && now - files[name] >= (seconds + 1) * 1_000_000_000 ==> served)
    ensures Keeper(false, files, Cutoff(now, delay))(name)
  {
  }

  /** Under ffmpeg's discipline the kept segments are contiguous, so NumbersKept applies. */
  lemma RollingDirectoryIsContiguous(entries: seq<Entry>, files: Files, cutoff: int)
    requires Ascending(entries, files) && MissingAtHead(entries, files)
    ensures Contiguous(KeptIndices(entries, Keeper(true, files, cutoff)))
  {
    var keep := Keeper(true, files, cutoff);
    var idx := KeptIndices(entries, keep);
    SurvivingAt(entries, keep);
    forall i, m: nat | 0 <= i < |idx| - 1 && idx[i] < m < idx[i + 1]
      ensures m in idx
    {
      assert idx[i] in idx && idx[i + 1] in idx;
      Between(entries, files, cutoff, idx[i], m, idx[i + 1]);
    }
    NoGaps(idx, |idx|);
    assert idx[..|idx|] == idx;
  }

  lemma {:induction false} NoGaps(idx: seq<nat>, n: nat)
    requires Increasing(idx) && n <= |idx|
    requires forall i, m: nat | 0 <= i < |idx| - 1 && idx[i] < m < idx[i + 1] :: m in idx
    ensures Contiguous(idx[..n])
  {
    if n >= 2 {
      NoGaps(idx, n - 1);
      var a := idx[n - 2];
      assert a == idx[..n - 1][n - 2] == idx[0] + (n - 2);
      if a + 1 < idx[n - 1] {
        NothingBetween(idx, n - 2, a + 1);
      }
      assert forall j | 0 <= j < n - 1 :: idx[..n - 1][j] == idx[j];
    }
  }

  lemma NothingBetween(idx: seq<nat>, j: nat, m: nat)
    requires Increasing(idx) && j + 1 < |idx| && idx[j] < m < idx[j + 1]
    ensures m !in idx
  {
  }

  lemma Between(entries: seq<Entry>, files: Files, cutoff: int, a: nat, m: nat, b: nat)
    requires Ascending(entries, files) && MissingAtHead(entries, files)
    requires a < m < b < |entries|
    requires Keeper(true, files, cutoff)(entries[a].uri) && Keeper(true, files, cutoff)(entries[b].uri)
    ensures m in KeptIndices(entries, Keeper(true, files, cutoff))
  {
    SurvivingAt(entries, Keeper(true, files, cutoff));
    assert entries[m].uri in files;
    assert files[entries[m].uri] <= files[entries[b].uri];
  }

  // ---------------------------------------------------------------- the served text

  ghost predicate FreeItems(items: seq<Item>) {
    forall i | 0 <= i < |items| :: Free(EmitItem(items[i], _ => true), '\n')
  }

  lemma {:induction false} EmitIsFree(items: seq<Item>, keep: string -> bool)
    requires FreeItems(items)
    ensures Free(Emit(items, keep), '\n')
  {
    if items != [] {
      assert FreeItems(items[..|items| - 1]);
      EmitIsFree(items[..|items| - 1], keep);
      var last := items[|items| - 1];
      assert EmitItem(last, keep) == [] || EmitItem(last, keep) == EmitItem(last, _ => true);
    }
  }

  lemma {:induction false} ScanIsFree(lines: seq<string>)
    requires Free(lines, '\n')
    ensures FreeItems(ScanPlaylist(lines).items) && Free(ScanPlaylist(lines).pending, '\n')
  {
    if lines != [] {
      var before, line := lines[..|lines| - 1], lines[|lines| - 1];
      ScanIsFree(before);
      var s := ScanPlaylist(before);
      NextIsFree(s, KindOf(line, s.started), line);
    }
  }

  lemma LineIsFree(items: seq<Item>, line: string)
    requires FreeItems(items) && '\n' !in line
    ensures FreeItems(items + [Line(line)])
  {
  }

  lemma NextIsFree(s: Scan, kind: Kind, line: string)
    requires FreeItems(s.items) && Free(s.pending, '\n') && '\n' !in line
    ensures FreeItems(Next(s, kind, line).items) && Free(Next(s, kind, line).pending, '\n')
  {
    match kind
    case Opening =>
      LineIsFree(s.items, EXTM3U);
      LineIsFree(s.items + [Line(EXTM3U)], START);
      assert s.items + [Line(EXTM3U), Line(START)] == s.items + [Line(EXTM3U)] + [Line(START)];
    case Uri =>
      var name := TrimSpace(line);
      TrimSpaceKeepsOut(line, '\n');
      assert '\n' !in "segment/";
      assert EmitItem(Segment(s.pending, name), _ => true) == s.pending + ["segment/" + name];
    case _ =>
      LineIsFree(s.items, line);
  }

  lemma {:induction false} PatchIsFree(lines: seq<string>, number: int)
    requires Free(lines, '\n')
    ensures Free(PatchSequence(lines, number), '\n')
  {
    if lines != [] {
      PatchIsFree(lines[1..], number);
      assert '\n' !in SEQUENCE && '\n' !in FormatInt(number);
    }
  }

  lemma BlankReads()
    ensures Entries([""]) == [] && Sequences([""]) == []
  {
  }

  lemma RepairedIsFree(out: seq<string>, syncOn: bool, sequence: int, dropped: nat)
    requires Free(out, '\n')
    ensures Free(Repaired(out, syncOn, sequence, dropped), '\n')
  {
    PatchIsFree(out, Printed(sequence, dropped));
  }

  lemma ServedIsFree(lines: seq<string>, syncOn: bool, keep: string -> bool)
    requires Free(lines, '\n')
    ensures Free(ServedLines(lines, syncOn, keep), '\n')
  {
    var s := ScanPlaylist(lines);
    ScanIsFree(lines);
    EmitIsFree(s.items, keep);
    RepairedIsFree(Emit(s.items, keep), syncOn, s.sequence, DroppedFromHead(s.items, keep));
  }

  /** The lines of the served text are the served lines, so the results above are about the text
      that a player receives. */
  lemma {:induction false} ServedText(data: string, syncOn: bool, keep: string -> bool, out: seq<string>)
    requires out == ServedLines(Split(data, '\n'), syncOn, keep)
    ensures var received := Split(Join(out, '\n'), '\n');
            && received == (if out == [] then [""] else out)
            && Entries(received) == Surviving(Entries(Split(data, '\n')), keep)
            && Sequences(received) == Sequences(out)
  {
    SplitIsFree(data, '\n');
    ServedIsFree(Split(data, '\n'), syncOn, keep);
    TrimmingKeepsEntries(Split(data, '\n'), syncOn, keep);
    if out == [] {
      BlankReads();
    } else {
      SplitJoin(out, '\n');
    }
  }
}

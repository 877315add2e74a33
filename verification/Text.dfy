/** Go strings and the few library routines on them that the relay relies on.

    A Go string is a sequence of bytes; here it is a `string` with one character per byte, and
    `IsBytes` says so where it matters. */
module Text {

  datatype Option<+T> = None | Some(value: T)

  ghost predicate IsBytes(s: string) {
    forall i | 0 <= i < |s| :: s[i] as int < 256
  }

  // ---------------------------------------------------------------- white space

  /** unicode.IsSpace on the one-, two- and three-byte UTF-8 encodings. */
  predicate Space1(a: char) {
    a == ' ' || 9 <= a as int <= 13
  }

  predicate Space2(a: char, b: char) {
    a as int == 0xC2 && (b as int == 0x85 || b as int == 0xA0)
  }

  predicate Space3(a: char, b: char, c: char) {
    var x, y, z := a as int, b as int, c as int;
    || (x == 0xE1 && y == 0x9A && z == 0x80)
    || (x == 0xE2 && y == 0x80 && (0x80 <= z <= 0x8A || z == 0xA8 || z == 0xA9 || z == 0xAF))
    || (x == 0xE2 && y == 0x81 && z == 0x9F)
    || (x == 0xE3 && y == 0x80 && z == 0x80)
  }

  /** Width of the white space character that `s` starts with, 0 if there is none. */
  function LeadingSpace(s: string): (width: nat)
    ensures width <= |s|
  {
    if |s| >= 1 && Space1(s[0]) then 1
    else if |s| >= 2 && Space2(s[0], s[1]) then 2
    else if |s| >= 3 && Space3(s[0], s[1], s[2]) then 3
    else 0
  }

  /** Width of the white space character that `s` ends with, 0 if there is none. */
  function TrailingSpace(s: string): (width: nat)
    ensures width <= |s|
  {
    var n := |s|;
    if n >= 1 && Space1(s[n - 1]) then 1
    else if n >= 2 && Space2(s[n - 2], s[n - 1]) then 2
    else if n >= 3 && Space3(s[n - 3], s[n - 2], s[n - 1]) then 3
    else 0
  }

  function TrimLeft(s: string): string
    decreases |s|
  {
    if LeadingSpace(s) == 0 then s else TrimLeft(s[LeadingSpace(s)..])
  }

  function TrimRight(s: string): string
    decreases |s|
  {
    if TrailingSpace(s) == 0 then s else TrimRight(s[..|s| - TrailingSpace(s)])
  }

  /** strings.TrimSpace */
  function TrimSpace(s: string): string {
    TrimRight(TrimLeft(s))
  }

  predicate Trimmed(s: string) {
    LeadingSpace(s) == 0 && TrailingSpace(s) == 0
  }

  lemma {:induction false} TrimLeftTrims(s: string)
    ensures LeadingSpace(TrimLeft(s)) == 0
    ensures |TrimLeft(s)| <= |s| && TrimLeft(s) == s[|s| - |TrimLeft(s)|..]
    decreases |s|
  {
    if LeadingSpace(s) != 0 {
      TrimLeftTrims(s[LeadingSpace(s)..]);
    }
  }

  lemma {:induction false} TrimRightTrims(s: string)
    ensures TrailingSpace(TrimRight(s)) == 0
    ensures TrimRight(s) <= s
    decreases |s|
  {
    if TrailingSpace(s) != 0 {
      TrimRightTrims(s[..|s| - TrailingSpace(s)]);
    }
  }

  /** TrimSpace yields a slice of its argument that has no white space at either end, and leaves
      such a string alone. */
  lemma TrimSpaceTrims(s: string)
    ensures Trimmed(TrimSpace(s))
    ensures Trimmed(s) <==> TrimSpace(s) == s
    ensures exists i, j | 0 <= i <= j <= |s| :: s[i..j] == TrimSpace(s)
  {
    TrimLeftTrims(s);
    TrimRightTrims(TrimLeft(s));
    var l := TrimLeft(s);
    var r := TrimRight(l);
    var i := |s| - |l|;
    assert s[i..i + |r|] == r;
  }

  /** Nothing but white space, read from the left. */
  predicate BlankLeft(s: string)
    decreases |s|
  {
    s == "" || (LeadingSpace(s) > 0 && BlankLeft(s[LeadingSpace(s)..]))
  }

  /** Nothing but white space, read from the right. */
  predicate BlankRight(s: string)
    decreases |s|
  {
    s == "" || (TrailingSpace(s) > 0 && BlankRight(s[..|s| - TrailingSpace(s)]))
  }

  lemma {:induction false} TrimLeftRemovesBlanks(s: string)
    ensures |TrimLeft(s)| <= |s| && BlankLeft(s[..|s| - |TrimLeft(s)|])
    decreases |s|
  {
    var w := LeadingSpace(s);
    if w != 0 {
      TrimLeftTrims(s[w..]);
      TrimLeftRemovesBlanks(s[w..]);
      var gone := s[..|s| - |TrimLeft(s)|];
      assert gone[w..] == s[w..][..|s| - w - |TrimLeft(s)|];
      assert LeadingSpace(gone) == w;
    }
  }

  lemma {:induction false} TrimRightRemovesBlanks(s: string)
    ensures |TrimRight(s)| <= |s| && BlankRight(s[|TrimRight(s)|..])
    decreases |s|
  {
    var w := TrailingSpace(s);
    if w != 0 {
      var t := s[..|s| - w];
      TrimRightTrims(t);
      TrimRightRemovesBlanks(t);
      var gone := s[|TrimRight(s)|..];
      assert gone[..|gone| - w] == t[|TrimRight(t)|..];
      assert TrailingSpace(gone) == w;
    }
  }

  /** Trimming removes white space at the ends and nothing else. */
  lemma TrimSpaceRemovesBlanks(s: string)
    ensures exists i, j | 0 <= i <= j <= |s| :: s[i..j] == TrimSpace(s) && BlankLeft(s[..i]) && BlankRight(s[j..])
  {
    var l := TrimLeft(s);
    var r := TrimRight(l);
    TrimLeftTrims(s);
    TrimLeftRemovesBlanks(s);
    TrimRightTrims(l);
    TrimRightRemovesBlanks(l);
    var i := |s| - |l|;
    assert s[i..i + |r|] == r && s[i + |r|..] == l[|r|..];
  }

  /** Trimming on the right stops at the latest at a first character that is not white space. */
  lemma {:induction false} TrimRightKeepsFirst(s: string)
    requires s != "" && LeadingSpace(s) == 0
    ensures TrimRight(s) != "" && TrimRight(s)[0] == s[0]
    decreases |s|
  {
    var w := TrailingSpace(s);
    if w != 0 {
      var t := s[..|s| - w];
      assert t != "";
      assert LeadingSpace(t) == 0;
      TrimRightKeepsFirst(t);
    }
  }

  lemma TrimSpaceKeepsOut(s: string, c: char)
    requires c !in s
    ensures c !in TrimSpace(s)
  {
    TrimSpaceTrims(s);
  }

  /** The code points that Unicode calls white space. */
  predicate WhiteSpace(point: nat) {
    || 0x09 <= point <= 0x0D || point == 0x20 || point == 0x85 || point == 0xA0 || point == 0x1680
    || 0x2000 <= point <= 0x200A || point == 0x2028 || point == 0x2029 || point == 0x202F || point == 0x205F
    || point == 0x3000
  }

  /** Section 3 of RFC 3629. */
  function Utf8(point: nat): string
    requires point < 0x11_0000
  {
    var last := (0x80 + point % 0x40) as char;
    if point < 0x80 then [point as char]
    else if point < 0x800 then [(0xC0 + point / 0x40) as char, last]
    else
      var middle := (0x80 + point / 0x40 % 0x40) as char;
      if point < 0x1_0000 then [(0xE0 + point / 0x1000) as char, middle, last]
      else [(0xF0 + point / 0x4_0000) as char, (0x80 + point / 0x1000 % 0x40) as char, middle, last]
  }

  predicate Encodes(point: nat)
    requires point < 0x11_0000
  {
    && LeadingSpace(Utf8(point)) == (if WhiteSpace(point) then |Utf8(point)| else 0)
    && (!WhiteSpace(point) ==> TrailingSpace(Utf8(point)) == 0)
  }

  lemma ShortEncodings(point: nat)
    requires point < 0x800
    ensures Encodes(point)
  {
  }

  lemma ThreeByteEncodings(point: nat)
    requires 0x800 <= point < 0x1_0000
    ensures Encodes(point)
  {
  }

  lemma FourByteEncodings(point: nat)
    requires 0x1_0000 <= point < 0x11_0000
    ensures Encodes(point)
  {
  }

  /** Of all code points exactly Unicode's white space is trimmed away. */
  lemma WhiteSpaceIsUnicode(point: nat)
    requires point < 0x11_0000
    ensures TrimSpace(Utf8(point)) == "" <==> WhiteSpace(point)
    ensures TrimSpace(Utf8(point)) == "" || TrimSpace(Utf8(point)) == Utf8(point)
  {
    var s := Utf8(point);
    if point < 0x800 {
      ShortEncodings(point);
    } else if point < 0x1_0000 {
      ThreeByteEncodings(point);
    } else {
      FourByteEncodings(point);
    }
    if WhiteSpace(point) {
      assert s[|s|..] == "";
      assert TrimLeft(s) == TrimLeft("") == "";
    }
  }

  lemma {:induction false} TrimLeftBeforeReturn(s: string)
    ensures TrimLeft(s + "\r") == if TrimLeft(s) == "" then "" else TrimLeft(s) + "\r"
    decreases |s|
  {
    var w := LeadingSpace(s);
    if s == "" {
      assert "" + "\r" == "\r" && LeadingSpace("\r") == 1 && "\r"[1..] == "";
    } else if w != 0 {
      assert LeadingSpace(s + "\r") == w && (s + "\r")[w..] == s[w..] + "\r";
      TrimLeftBeforeReturn(s[w..]);
    } else {
      assert LeadingSpace(s + "\r") == 0;
    }
  }

  /** A carriage return at the end of a line is trimmed away. */
  lemma TrimSpaceBeforeReturn(s: string)
    ensures TrimSpace(s + "\r") == TrimSpace(s)
  {
    var t := TrimLeft(s);
    TrimLeftBeforeReturn(s);
    assert (t + "\r")[..|t|] == t && TrailingSpace(t + "\r") == 1;
  }

  // ---------------------------------------------------------------- splitting and joining

  /** strings.Split with a one-character separator */
  function Split(s: string, sep: char): (parts: seq<string>)
    ensures |parts| >= 1
  {
    if s == "" then [""]
    else
      var rest := Split(s[1..], sep);
      if s[0] == sep then [""] + rest else [[s[0]] + rest[0]] + rest[1..]
  }

  /** strings.Join with a one-character separator */
  function Join(parts: seq<string>, sep: char): string {
    if |parts| == 0 then ""
    else if |parts| == 1 then parts[0]
    else parts[0] + [sep] + Join(parts[1..], sep)
  }

  ghost predicate Free(parts: seq<string>, sep: char) {
    forall i | 0 <= i < |parts| :: sep !in parts[i]
  }

  lemma {:induction false} SplitHead(a: string, sep: char, b: string)
    requires sep !in a
    ensures Split(a, sep) == [a]
    ensures Split(a + [sep] + b, sep) == [a] + Split(b, sep)
  {
    if a == "" {
      assert (a + [sep] + b)[1..] == b;
    } else {
      SplitHead(a[1..], sep, b);
      assert (a + [sep] + b)[1..] == a[1..] + [sep] + b;
      assert [a[0]] + a[1..] == a;
    }
  }

  lemma {:induction false} SplitIsFree(s: string, sep: char)
    ensures Free(Split(s, sep), sep)
  {
    if s != "" {
      SplitIsFree(s[1..], sep);
    }
  }

  lemma {:induction false} JoinSplit(s: string, sep: char)
    ensures Join(Split(s, sep), sep) == s
  {
    if s != "" {
      JoinSplit(s[1..], sep);
      var rest := Split(s[1..], sep);
      if s[0] == sep {
        assert ([""] + rest)[1..] == rest;
      } else {
        assert ([[s[0]] + rest[0]] + rest[1..])[1..] == rest[1..];
      }
      assert s == [s[0]] + s[1..];
    }
  }

  lemma {:induction false} SplitJoin(parts: seq<string>, sep: char)
    requires |parts| >= 1 && Free(parts, sep)
    ensures Split(Join(parts, sep), sep) == parts
  {
    if |parts| == 1 {
      SplitHead(parts[0], sep, "");
    } else {
      var rest := parts[1..];
      SplitJoin(rest, sep);
      SplitHead(parts[0], sep, Join(rest, sep));
      assert Join(parts, sep) == parts[0] + [sep] + Join(rest, sep);
      assert [parts[0]] + rest == parts;
    }
  }

  /** Every line followed by a line feed. */
  function Unlines(lines: seq<string>): string {
    if |lines| == 0 then "" else lines[0] + "\n" + Unlines(lines[1..])
  }

  lemma {:induction false} UnlinesSnoc(lines: seq<string>, line: string)
    ensures Unlines(lines + [line]) == Unlines(lines) + line + "\n"
  {
    if |lines| == 0 {
      assert lines + [line] == [line];
      assert Unlines([line]) == line + "\n" + Unlines([]);
    } else {
      assert (lines + [line])[1..] == lines[1..] + [line];
      UnlinesSnoc(lines[1..], line);
    }
  }

  lemma {:induction false} SplitUnlines(lines: seq<string>)
    requires Free(lines, '\n')
    ensures Split(Unlines(lines), '\n') == lines + [""]
  {
    if |lines| != 0 {
      SplitHead(lines[0], '\n', Unlines(lines[1..]));
      SplitUnlines(lines[1..]);
    }
  }

  // ---------------------------------------------------------------- searching

  /** strings.IndexByte, with |s| instead of -1 for "not there" */
  function IndexOf(s: string, c: char): (i: nat)
    ensures i <= |s| && c !in s[..i]
    ensures i < |s| ==> s[i] == c
  {
    if s == "" then 0 else if s[0] == c then 0
    else
      assert s[..1 + IndexOf(s[1..], c)] == [s[0]] + s[1..][..IndexOf(s[1..], c)];
      1 + IndexOf(s[1..], c)
  }

  /** strings.Cut */
  function Cut(s: string, sep: char): (parts: (string, string)) {
    var i := IndexOf(s, sep);
    if i < |s| then (s[..i], s[i + 1..]) else (s, "")
  }

  lemma {:induction false} IndexOfHead(a: string, sep: char, b: string)
    requires sep !in a
    ensures IndexOf(a + [sep] + b, sep) == |a|
  {
    if a != "" {
      assert (a + [sep] + b)[1..] == a[1..] + [sep] + b;
      IndexOfHead(a[1..], sep, b);
    }
  }

  lemma CutHead(a: string, sep: char, b: string)
    requires sep !in a
    ensures Cut(a + [sep] + b, sep) == (a, b)
    ensures Cut(a, sep) == (a, "")
  {
    var s := a + [sep] + b;
    IndexOfHead(a, sep, b);
    assert s[..|a|] == a && s[|a| + 1..] == b;
  }
}

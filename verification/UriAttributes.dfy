/** The regular expression URI="([^"]+)" and its ReplaceAllStringFunc, which both playlist passes
    run over the tag lines. */
module UriAttributes {
  import opened Text

  const OPEN := "URI=\""

  /** The expression matches at the start of `s`. */
  predicate MatchesHere(s: string) {
    OPEN <= s && 0 < IndexOf(s[5..], '"') < |s| - 5
  }

  function Captured(s: string): (inner: string)
    requires MatchesHere(s)
    ensures inner != "" && '"' !in inner
    ensures OPEN + inner + "\"" <= s
  {
    s[5..5 + IndexOf(s[5..], '"')]
  }

  function AfterMatch(s: string): (rest: string)
    requires MatchesHere(s)
    ensures s == OPEN + Captured(s) + "\"" + rest
  {
    s[5 + IndexOf(s[5..], '"') + 1..]
  }

  /** Replaces the capture of every match, scanning from the left. */
  function ReplaceAll(s: string, f: string -> string): string
    decreases |s|
  {
    if s == "" then ""
    else if MatchesHere(s) then OPEN + f(Captured(s)) + "\"" + ReplaceAll(AfterMatch(s), f)
    else [s[0]] + ReplaceAll(s[1..], f)
  }

  /** The captures of all matches, from left to right. */
  function Captures(s: string): seq<string>
    decreases |s|
  {
    if s == "" then []
    else if MatchesHere(s) then [Captured(s)] + Captures(AfterMatch(s))
    else Captures(s[1..])
  }

  function MapAll(f: string -> string, xs: seq<string>): (ys: seq<string>)
    ensures |ys| == |xs|
    ensures forall i | 0 <= i < |xs| :: ys[i] == f(xs[i])
  {
    seq(|xs|, i requires 0 <= i < |xs| => f(xs[i]))
  }

  // ---------------------------------------------------------------- what the scanner finds

  /** The declarative meaning of the expression: s[i..j] is a match. */
  ghost predicate Match(s: string, i: int, j: int) {
    && 0 <= i && i + 7 <= j <= |s|
    && s[i..i + 5] == OPEN
    && '"' !in s[i + 5..j - 1]
    && s[j - 1] == '"'
  }

  lemma MatchRequoted(inner: string, rest: string)
    requires inner != "" && '"' !in inner
    ensures var s := OPEN + inner + "\"" + rest;
            MatchesHere(s) && Captured(s) == inner && AfterMatch(s) == rest
  {
    var s := OPEN + inner + "\"" + rest;
    assert s[5..] == inner + ['"'] + rest;
    IndexOfHead(inner, '"', rest);
  }

  lemma MatchPieces(s: string, i: nat, j: int)
    requires Match(s, i, j)
    ensures s[i..] == OPEN + s[i + 5..j - 1] + "\"" + s[j..]
  {
    var t := s[i..];
    assert t == t[..5] + t[5..j - 1 - i] + t[j - 1 - i..j - i] + t[j - i..];
    assert t[..5] == s[i..i + 5] && t[5..j - 1 - i] == s[i + 5..j - 1] && t[j - i..] == s[j..];
    assert t[j - 1 - i..j - i] == "\"";
  }

  lemma MatchesHereIsMatch(s: string, i: nat)
    requires i <= |s|
    ensures MatchesHere(s[i..]) <==> exists j :: Match(s, i, j)
    ensures forall j | Match(s, i, j) :: Captured(s[i..]) == s[i + 5..j - 1] && AfterMatch(s[i..]) == s[j..]
  {
    var t := s[i..];
    if MatchesHere(t) {
      var j := i + 5 + |Captured(t)| + 1;
      assert s[i + 5..j - 1] == Captured(t);
      assert Match(s, i, j);
    }
    forall j | Match(s, i, j)
      ensures MatchesHere(t) && Captured(t) == s[i + 5..j - 1] && AfterMatch(t) == s[j..]
    {
      MatchPieces(s, i, j);
      MatchRequoted(s[i + 5..j - 1], s[j..]);
    }
  }

  ghost predicate NoMatchBefore(s: string, i: int) {
    forall k, j | 0 <= k < i :: !Match(s, k, j)
  }

  lemma MatchShifts(s: string, k: nat, l: int)
    requires s != ""
    ensures Match(s[1..], k, l) <==> Match(s, k + 1, l + 1)
  {
    var t := s[1..];
    if k + 7 <= l <= |t| {
      assert t[k..k + 5] == s[k + 1..k + 6] && t[k + 5..l - 1] == s[k + 6..l];
    }
  }

  lemma NoMatchShifts(s: string, i: nat)
    requires s != "" && i > 0 && NoMatchBefore(s, i)
    ensures !MatchesHere(s)
    ensures NoMatchBefore(s[1..], i - 1)
  {
    assert s[0..] == s;
    MatchesHereIsMatch(s, 0);
    forall k, l | 0 <= k < i - 1
      ensures !Match(s[1..], k, l)
    {
      MatchShifts(s, k, l);
    }
  }

  /** The scanner replaces the leftmost match and goes on behind it; without a match the text is
      unchanged.  Together the two lemmas determine ReplaceAll and Captures. */
  lemma {:induction false} LeftmostMatch(gap: string, inner: string, rest: string, f: string -> string)
    requires inner != "" && '"' !in inner
    requires NoMatchBefore(gap + (OPEN + inner + "\"" + rest), |gap|)
    ensures ReplaceAll(gap + (OPEN + inner + "\"" + rest), f) == gap + (OPEN + f(inner) + "\"" + ReplaceAll(rest, f))
    ensures Captures(gap + (OPEN + inner + "\"" + rest)) == [inner] + Captures(rest)
  {
    var s := gap + (OPEN + inner + "\"" + rest);
    if gap == "" {
      assert s == OPEN + inner + "\"" + rest;
      MatchRequoted(inner, rest);
    } else {
      NoMatchShifts(s, |gap|);
      assert s[1..] == gap[1..] + (OPEN + inner + "\"" + rest);
      LeftmostMatch(gap[1..], inner, rest, f);
    }
  }

  lemma {:induction false} NoMatch(s: string, f: string -> string)
    requires NoMatchBefore(s, |s|)
    ensures ReplaceAll(s, f) == s && Captures(s) == []
    decreases |s|
  {
    if s != "" {
      NoMatchShifts(s, |s|);
      NoMatch(s[1..], f);
    }
  }

  // ---------------------------------------------------------------- stability under replacement

  ghost predicate Quotable(x: string) {
    x != "" && '"' !in x
  }

  /** `f` turns captures into text that the expression can capture again. */
  ghost predicate Requotable(f: string -> string) {
    forall x | Quotable(x) :: Quotable(f(x))
  }

  lemma {:induction false} QuoteFree(s: string, f: string -> string)
    requires '"' !in s
    ensures ReplaceAll(s, f) == s && Captures(s) == []
    decreases |s|
  {
    if s != "" {
      assert '"' !in s[1..];
      assert !MatchesHere(s) by {
        if MatchesHere(s) {
          MatchStartsWithU(s);
        }
      }
      QuoteFree(s[1..], f);
    }
  }

  lemma MatchStartsWithU(s: string)
    requires MatchesHere(s)
    ensures |s| >= 7 && s[0] == 'U' && s[1] == 'R' && s[2] == 'I' && s[3] == '=' && s[4] == '"'
  {
  }

  /** A replacement changes nothing in the first five characters. */
  lemma {:induction false} PrefixKept(s: string, f: string -> string, n: nat)
    requires n <= 5
    ensures |ReplaceAll(s, f)| < n <==> |s| < n
    ensures |s| >= n ==> ReplaceAll(s, f)[..n] == s[..n]
    ensures |s| < n ==> ReplaceAll(s, f) == s
    decreases |s|
  {
    if s != "" && n > 0 {
      if MatchesHere(s) {
        MatchStartsWithU(s);
        assert s[..5] == OPEN;
        assert ReplaceAll(s, f)[..5] == OPEN;
        assert ReplaceAll(s, f)[..n] == OPEN[..n] == s[..n];
      } else {
        PrefixKept(s[1..], f, n - 1);
        var r := ReplaceAll(s[1..], f);
        if |s| >= n {
          assert ([s[0]] + r)[..n] == [s[0]] + r[..n - 1];
          assert s[..n] == [s[0]] + s[1..][..n - 1];
        }
      }
    }
  }

  /** No replacement behind a position creates a match at it. */
  lemma {:induction false} NoMatchCreated(s: string, f: string -> string)
    requires s != "" && !MatchesHere(s)
    ensures !MatchesHere([s[0]] + ReplaceAll(s[1..], f))
  {
    var t := [s[0]] + ReplaceAll(s[1..], f);
    if OPEN <= t {
      PrefixKept(s[1..], f, 4);
      assert |s| >= 5;
      assert t[..5] == [s[0]] + ReplaceAll(s[1..], f)[..4];
      assert s[..5] == [s[0]] + s[1..][..4];
      assert OPEN <= s;
      if '"' !in s[5..] {
        // `URI="` and no further quote: nothing behind it matches either
        QuoteFree(s[5..], f);
        assert ReplaceAll(s[1..], f) == s[1..] by {
          OpenTail(s, f);
        }
        assert t == s;
        assert t[5..][..IndexOf(t[5..], '"')] <= t[5..];
      } else {
        assert |s| >= 6 && s[5] == '"';
        PrefixKept(s[1..], f, 5);
        assert ReplaceAll(s[1..], f)[..5][4] == s[1..][..5][4];
        assert t[5..][0] == '"';
      }
    }
  }

  lemma OpenTail(s: string, f: string -> string)
    requires OPEN <= s && ReplaceAll(s[5..], f) == s[5..]
    ensures ReplaceAll(s[1..], f) == s[1..]
  {
    assert s[..5] == OPEN;
    assert s[1] == 'R' && s[2] == 'I' && s[3] == '=' && s[4] == '"';
    KeepFirst(s[4..], f);
    KeepFirst(s[3..], f);
    KeepFirst(s[2..], f);
    KeepFirst(s[1..], f);
  }

  lemma KeepFirst(s: string, f: string -> string)
    requires s != "" && s[0] != 'U' && ReplaceAll(s[1..], f) == s[1..]
    ensures ReplaceAll(s, f) == s
  {
  }

  lemma {:induction false} ReplacedTwice(s: string, f: string -> string, g: string -> string, h: string -> string)
    requires Requotable(f) && forall x :: h(x) == g(f(x))
    ensures ReplaceAll(ReplaceAll(s, f), g) == ReplaceAll(s, h)
    decreases |s|
  {
    if s == "" {
    } else if MatchesHere(s) {
      var inner, rest := Captured(s), AfterMatch(s);
      ReplacedTwice(rest, f, g, h);
      assert Quotable(inner) && Quotable(f(inner));
      MatchRequoted(f(inner), ReplaceAll(rest, f));
      assert ReplaceAll(ReplaceAll(s, f), g) == OPEN + g(f(inner)) + "\"" + ReplaceAll(ReplaceAll(rest, f), g);
    } else {
      ReplacedTwice(s[1..], f, g, h);
      NoMatchCreated(s, f);
      var t := [s[0]] + ReplaceAll(s[1..], f);
      assert t[1..] == ReplaceAll(s[1..], f);
    }
  }

  lemma {:induction false} CapturesReplaced(s: string, f: string -> string)
    requires Requotable(f)
    ensures Captures(ReplaceAll(s, f)) == MapAll(f, Captures(s))
    decreases |s|
  {
    if s == "" {
    } else if MatchesHere(s) {
      var inner, rest := Captured(s), AfterMatch(s);
      CapturesReplaced(rest, f);
      assert Quotable(inner) && Quotable(f(inner));
      MatchRequoted(f(inner), ReplaceAll(rest, f));
      assert Captures(ReplaceAll(s, f)) == [f(inner)] + Captures(ReplaceAll(rest, f));
    } else {
      CapturesReplaced(s[1..], f);
      NoMatchCreated(s, f);
      var t := [s[0]] + ReplaceAll(s[1..], f);
      assert t[1..] == ReplaceAll(s[1..], f);
    }
  }

  /** A second pass finds exactly the attributes that the first one wrote, in order, and the text
      between them as it was: replacing twice is replacing once by the composition. */
  lemma PassesAgree(s: string, f: string -> string, g: string -> string)
    requires Requotable(f)
    ensures ReplaceAll(ReplaceAll(s, f), g) == ReplaceAll(s, x => g(f(x)))
    ensures Captures(ReplaceAll(s, f)) == MapAll(f, Captures(s))
  {
    ReplacedTwice(s, f, g, x => g(f(x)));
    CapturesReplaced(s, f);
  }

  lemma {:induction false} CapturesQuotable(s: string)
    ensures forall x | x in Captures(s) :: Quotable(x)
    decreases |s|
  {
    if s == "" {
    } else if MatchesHere(s) {
      CapturesQuotable(AfterMatch(s));
    } else {
      CapturesQuotable(s[1..]);
    }
  }

  lemma PiecesOfMatch(s: string, c: char)
    requires MatchesHere(s) && c !in s
    ensures c !in OPEN && c != '"' && c !in Captured(s) && c !in AfterMatch(s)
  {
  }

  /** A pass adds no character but those of its replacements. */
  lemma {:induction false} ReplaceAllKeepsOut(s: string, f: string -> string, c: char)
    requires c !in s && forall x | c !in x :: c !in f(x)
    ensures c !in ReplaceAll(s, f)
    decreases |s|
  {
    if s == "" {
    } else if MatchesHere(s) {
      PiecesOfMatch(s, c);
      ReplaceAllKeepsOut(AfterMatch(s), f, c);
    } else {
      ReplaceAllKeepsOut(s[1..], f, c);
    }
  }

  /** Text without a U at its start is copied. */
  lemma {:induction false} CopiesUntilU(a: string, s: string, f: string -> string)
    requires 'U' !in a
    ensures ReplaceAll(a + s, f) == a + ReplaceAll(s, f)
  {
    if a == "" {
      assert a + s == s;
    } else {
      assert (a + s)[1..] == a[1..] + s;
      if MatchesHere(a + s) {
        MatchStartsWithU(a + s);
      }
      CopiesUntilU(a[1..], s, f);
    }
  }

  // ---------------------------------------------------------------- white space around a line

  lemma {:induction false} CapturesBehindBlank(a: string, s: string)
    requires 'U' !in a
    ensures Captures(a + s) == Captures(s)
  {
    if a == "" {
      assert a + s == s;
    } else {
      assert (a + s)[1..] == a[1..] + s;
      if MatchesHere(a + s) {
        MatchStartsWithU(a + s);
      }
      CapturesBehindBlank(a[1..], s);
    }
  }

  lemma MatchBeforeBlank(s: string, b: string)
    requires '"' !in b
    ensures MatchesHere(s + b) <==> MatchesHere(s)
    ensures MatchesHere(s) ==> Captured(s + b) == Captured(s) && AfterMatch(s + b) == AfterMatch(s) + b
  {
    var t := s + b;
    if MatchesHere(s) {
      assert t == OPEN + Captured(s) + "\"" + (AfterMatch(s) + b);
      MatchRequoted(Captured(s), AfterMatch(s) + b);
    }
  }

  lemma {:induction false} CapturesBeforeBlank(s: string, b: string)
    requires '"' !in b
    ensures Captures(s + b) == Captures(s)
    decreases |s|
  {
    MatchBeforeBlank(s, b);
    if s == "" {
      assert s + b == b;
      QuoteFree(b, x => x);
    } else if MatchesHere(s) {
      CapturesBeforeBlank(AfterMatch(s), b);
    } else {
      assert (s + b)[1..] == s[1..] + b;
      CapturesBeforeBlank(s[1..], b);
    }
  }

  lemma {:induction false} BlankLeftHasNoU(s: string)
    requires BlankLeft(s)
    ensures 'U' !in s
    decreases |s|
  {
    if s != "" {
      BlankLeftHasNoU(s[LeadingSpace(s)..]);
      assert s == s[..LeadingSpace(s)] + s[LeadingSpace(s)..];
    }
  }

  lemma {:induction false} BlankRightHasNoQuote(s: string)
    requires BlankRight(s)
    ensures '"' !in s
    decreases |s|
  {
    if s != "" {
      var w := TrailingSpace(s);
      var a, b := s[..|s| - w], s[|s| - w..];
      BlankRightHasNoQuote(a);
      assert '"' !in b;
      assert s == a + b;
    }
  }

  lemma CapturesAmongBlanks(a: string, s: string, b: string)
    requires BlankLeft(a) && BlankRight(b)
    ensures Captures(a + (s + b)) == Captures(s)
  {
    BlankLeftHasNoU(a);
    BlankRightHasNoQuote(b);
    CapturesBeforeBlank(s, b);
    CapturesBehindBlank(a, s + b);
  }

  lemma Around(line: string, i: nat, j: nat)
    requires i <= j <= |line|
    ensures line == line[..i] + (line[i..j] + line[j..])
  {
  }

  /** White space around a line hides no attribute and makes none. */
  lemma {:induction false} CapturesOfTrimmed(line: string)
    ensures Captures(TrimSpace(line)) == Captures(line)
  {
    ghost var t := TrimSpace(line);
    TrimSpaceRemovesBlanks(line);
    var i, j :| 0 <= i <= j <= |line| && line[i..j] == t && BlankLeft(line[..i]) && BlankRight(line[j..]);
    CapturesAmongBlanks(line[..i], t, line[j..]);
    Around(line, i, j);
  }

  // ---------------------------------------------------------------- tags stay tags

  lemma HashStaysFirst(s: string, f: string -> string)
    requires s != "" && s[0] == '#'
    ensures ReplaceAll(s, f) != "" && ReplaceAll(s, f)[0] == '#'
  {
  }

  lemma TrimLeftStep(s: string, r: string)
    requires LeadingSpace(s) > 0
    ensures TrimLeft(s[..LeadingSpace(s)] + r) == TrimLeft(r)
    ensures 'U' !in s[..LeadingSpace(s)]
  {
  }

  /** Dropping leading white space and replacing commute on lines that are blank or tags. */
  lemma {:induction false} TrimLeftCommutes(s: string, f: string -> string)
    requires TrimLeft(s) == "" || TrimLeft(s)[0] == '#'
    ensures TrimLeft(ReplaceAll(s, f)) == ReplaceAll(TrimLeft(s), f)
    decreases |s|
  {
    var w := LeadingSpace(s);
    if w > 0 {
      TrimLeftCommutes(s[w..], f);
      TrimLeftStep(s, ReplaceAll(s[w..], f));
      CopiesUntilU(s[..w], s[w..], f);
      assert s[..w] + s[w..] == s;
    } else if s != "" {
      HashStaysFirst(s, f);
      assert LeadingSpace(ReplaceAll(s, f)) == 0;
    }
  }
}

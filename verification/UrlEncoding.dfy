/** net/url: percent encoding, its inverse, and url.Values.Get on a raw query. */
module UrlEncoding {
  import opened Text

  datatype Mode = PathSegment | QueryComponent

  predicate Unreserved(c: char) {
    'a' <= c <= 'z' || 'A' <= c <= 'Z' || '0' <= c <= '9' || c in "-_.~"
  }

  predicate Verbatim(c: char, mode: Mode) {
    Unreserved(c) || (mode.PathSegment? && c in "$&+:=@")
  }

  function HexDigit(d: nat): char
    requires d < 16
  {
    if d < 10 then ('0' as int + d) as char else ('A' as int + d - 10) as char
  }

  predicate IsHex(c: char) {
    '0' <= c <= '9' || 'a' <= c <= 'f' || 'A' <= c <= 'F'
  }

  function Unhex(c: char): (d: nat)
    requires IsHex(c)
    ensures d < 16
  {
    if c <= '9' then c as int - '0' as int
    else if c <= 'F' then c as int - 'A' as int + 10
    else c as int - 'a' as int + 10
  }

  function Byte(c: char): (b: nat)
    ensures b < 256 && (c as int < 256 ==> b == c as int)
  {
    c as int % 256
  }

  function HexPair(b: nat): string
    requires b < 256
  {
    ['%', HexDigit(b / 16), HexDigit(b % 16)]
  }

  function EscapeByte(c: char, mode: Mode): string {
    if c == ' ' && mode.QueryComponent? then "+"
    else if Verbatim(c, mode) then [c]
    else HexPair(Byte(c))
  }

  /** url.PathEscape and url.QueryEscape */
  function Escape(s: string, mode: Mode): string {
    if s == "" then "" else EscapeByte(s[0], mode) + Escape(s[1..], mode)
  }

  function Prepend(s: string, rest: Option<string>): Option<string> {
    if rest.None? then None else Some(s + rest.value)
  }

  /** url.PathUnescape and url.QueryUnescape; None stands for their error */
  function Unescape(s: string, mode: Mode): Option<string>
    decreases |s|
  {
    if s == "" then Some("")
    else if s[0] == '%' then
      if |s| < 3 || !IsHex(s[1]) || !IsHex(s[2]) then None
      else Prepend([(Unhex(s[1]) * 16 + Unhex(s[2])) as char], Unescape(s[3..], mode))
    else if s[0] == '+' && mode.QueryComponent? then Prepend(" ", Unescape(s[1..], mode))
    else Prepend([s[0]], Unescape(s[1..], mode))
  }

  lemma PrependTwice(a: string, b: string, rest: Option<string>)
    ensures Prepend(a, Prepend(b, rest)) == Prepend(a + b, rest)
  {
    if rest.Some? {
      assert a + (b + rest.value) == (a + b) + rest.value;
    }
  }

  lemma HexRoundTrip(d: nat)
    requires d < 16
    ensures IsHex(HexDigit(d)) && Unhex(HexDigit(d)) == d
  {
  }

  lemma UnescapeHexPair(b: nat, mode: Mode, rest: string)
    requires b < 256
    ensures Unescape(HexPair(b) + rest, mode) == Prepend([b as char], Unescape(rest, mode))
  {
    var e := HexPair(b);
    HexRoundTrip(b / 16);
    HexRoundTrip(b % 16);
    assert (e + rest)[3..] == rest;
  }

  lemma UnescapeVerbatim(c: char, mode: Mode, rest: string)
    requires c != '%' && (mode.QueryComponent? ==> c != '+')
    ensures Unescape([c] + rest, mode) == Prepend([c], Unescape(rest, mode))
  {
    assert ([c] + rest)[1..] == rest;
  }

  lemma UnescapeEscapedByte(c: char, mode: Mode, rest: string)
    requires c as int < 256
    ensures Unescape(EscapeByte(c, mode) + rest, mode) == Prepend([c], Unescape(rest, mode))
  {
    if c == ' ' && mode.QueryComponent? {
      assert ("+" + rest)[1..] == rest;
    } else if Verbatim(c, mode) {
      UnescapeVerbatim(c, mode, rest);
    } else {
      UnescapeHexPair(Byte(c), mode, rest);
    }
  }

  /** Unescaping undoes escaping, whatever follows. */
  lemma {:induction false} UnescapeEscape(s: string, mode: Mode, rest: string)
    requires IsBytes(s)
    ensures Unescape(Escape(s, mode) + rest, mode) == Prepend(s, Unescape(rest, mode))
  {
    if s == "" {
      assert Escape(s, mode) + rest == rest;
      assert Unescape(rest, mode).Some? ==> "" + Unescape(rest, mode).value == Unescape(rest, mode).value;
    } else {
      var tail := Escape(s[1..], mode) + rest;
      assert Escape(s, mode) + rest == EscapeByte(s[0], mode) + tail;
      UnescapeEscapedByte(s[0], mode, tail);
      UnescapeEscape(s[1..], mode, rest);
      PrependTwice([s[0]], s[1..], Unescape(rest, mode));
      assert [s[0]] + s[1..] == s;
    }
  }

  lemma {:induction false} UnescapePlain(s: string, mode: Mode, rest: string)
    requires '%' !in s && '+' !in s
    ensures Unescape(s + rest, mode) == Prepend(s, Unescape(rest, mode))
  {
    if s == "" {
      assert s + rest == rest;
      assert Unescape(rest, mode).Some? ==> "" + Unescape(rest, mode).value == Unescape(rest, mode).value;
    } else {
      assert (s + rest)[1..] == s[1..] + rest;
      UnescapePlain(s[1..], mode, rest);
      PrependTwice([s[0]], s[1..], Unescape(rest, mode));
      assert [s[0]] + s[1..] == s;
    }
  }

  /** Unreserved characters stand for themselves. */
  lemma {:induction false} EscapeUnreserved(s: string, mode: Mode)
    requires forall i | 0 <= i < |s| :: Unreserved(s[i])
    ensures Escape(s, mode) == s
  {
    if s != "" {
      EscapeUnreserved(s[1..], mode);
      UnreservedByte(s[0], mode);
      assert s == [s[0]] + s[1..];
    }
  }

  lemma UnreservedByte(c: char, mode: Mode)
    requires Unreserved(c)
    ensures EscapeByte(c, mode) == [c]
  {
  }

  /** A percent sign without two hexadecimal digits behind it. */
  ghost predicate Broken(s: string, i: int) {
    0 <= i < |s| && s[i] == '%' && (i + 2 >= |s| || !IsHex(s[i + 1]) || !IsHex(s[i + 2]))
  }

  /** The text cannot be decoded exactly when it has such a percent sign. */
  lemma {:induction false} UnescapeFails(s: string, mode: Mode)
    ensures Unescape(s, mode).None?
            <==> exists i :: Broken(s, i)
    decreases |s|
  {
    if s == "" {
    } else if s[0] != '%' {
      UnescapeFails(s[1..], mode);
      FailureShifts(s, 1);
    } else if |s| >= 3 && IsHex(s[1]) && IsHex(s[2]) {
      UnescapeFails(s[3..], mode);
      FailureShifts(s, 3);
    } else {
      assert Broken(s, 0);
    }
  }

  lemma FailureShifts(s: string, n: nat)
    requires n <= |s| && forall i | 0 <= i < n :: !Broken(s, i)
    ensures (exists i :: Broken(s, i)) <==> exists i :: Broken(s[n..], i)
  {
    if i :| Broken(s, i) {
      assert Broken(s[n..], i - n);
    }
    if i :| Broken(s[n..], i) {
      assert Broken(s, i + n);
    }
  }

  /** Every character that escaping can produce. */
  predicate UrlChar(c: char) {
    Unreserved(c) || c in "$&+:=@%"
  }

  ghost predicate UrlText(s: string) {
    forall i | 0 <= i < |s| :: UrlChar(s[i])
  }

  lemma {:induction false} EscapeIsUrlText(s: string, mode: Mode)
    ensures UrlText(Escape(s, mode))
    ensures mode.QueryComponent? ==> forall c | c in Escape(s, mode) :: Unreserved(c) || c in "+%"
  {
    if s != "" {
      EscapeIsUrlText(s[1..], mode);
      assert UrlText(EscapeByte(s[0], mode));
    }
  }

  // ---------------------------------------------------------------- queries

  /** url.ParseQuery followed by Get: the value of the first well-formed pair with that key. */
  function QueryGet(raw: string, key: string): string
    decreases |raw|
  {
    if raw == "" then ""
    else
      var (pair, rest) := Cut(raw, '&');
      if pair == "" || ';' in pair then QueryGet(rest, key)
      else
        var (k, v) := Cut(pair, '=');
        var k', v' := Unescape(k, QueryComponent), Unescape(v, QueryComponent);
        if k'.Some? && v'.Some? && k'.value == key then v'.value else QueryGet(rest, key)
  }

  /** One piece between two ampersands decodes to this key and value. */
  predicate Decodes(piece: string, key: string) {
    && piece != "" && ';' !in piece
    && Unescape(Cut(piece, '=').0, QueryComponent) == Some(key)
    && Unescape(Cut(piece, '=').1, QueryComponent).Some?
  }

  ghost predicate FirstDecoded(pieces: seq<string>, key: string, i: nat) {
    i < |pieces| && Decodes(pieces[i], key) && forall j | 0 <= j < i :: !Decodes(pieces[j], key)
  }

  lemma CutIsSplit(raw: string, sep: char)
    ensures Split(raw, sep) == if sep in raw then [Cut(raw, sep).0] + Split(Cut(raw, sep).1, sep) else [raw]
    ensures sep !in raw ==> Cut(raw, sep) == (raw, "")
    ensures sep in raw ==> raw == Cut(raw, sep).0 + [sep] + Cut(raw, sep).1 && sep !in Cut(raw, sep).0
  {
    var (head, tail) := Cut(raw, sep);
    assert raw[..|raw|] == raw;
    if sep in raw {
      assert raw == head + [sep] + tail;
      SplitHead(head, sep, tail);
    } else {
      SplitHead(raw, sep, "");
    }
  }

  /** The value of the first piece that decodes to the key; pieces that do not decode count for
      nothing. */
  lemma {:induction false} QueryGetFirst(raw: string, key: string)
    ensures var pieces := Split(raw, '&');
            && (forall i: nat | FirstDecoded(pieces, key, i) ::
                  Some(QueryGet(raw, key)) == Unescape(Cut(pieces[i], '=').1, QueryComponent))
            && ((forall i | 0 <= i < |pieces| :: !Decodes(pieces[i], key)) ==> QueryGet(raw, key) == "")
    decreases |raw|
  {
    var pieces := Split(raw, '&');
    CutIsSplit(raw, '&');
    if raw != "" && !Decodes(pieces[0], key) {
      var rest := Cut(raw, '&').1;
      QueryGetFirst(rest, key);
      if '&' in raw {
        assert pieces[1..] == Split(rest, '&');
        forall i: nat | FirstDecoded(pieces, key, i)
          ensures FirstDecoded(pieces[1..], key, i - 1)
        {
        }
      }
    }
  }

  /** A piece with a semicolon is skipped, and so is one that cannot be decoded. */
  lemma PieceIsSkipped(piece: string, rest: string, key: string)
    requires '&' !in piece && (';' in piece || Unescape(piece, QueryComponent).None?)
    ensures QueryGet(piece + "&" + rest, key) == QueryGet(rest, key)
  {
    CutHead(piece, '&', rest);
    assert piece + "&" + rest == piece + ['&'] + rest;
    if ';' !in piece {
      CutBreaks(piece);
    }
  }

  lemma CutBreaks(piece: string)
    requires Unescape(piece, QueryComponent).None?
    ensures Unescape(Cut(piece, '=').0, QueryComponent).None? || Unescape(Cut(piece, '=').1, QueryComponent).None?
  {
    var (k, v) := Cut(piece, '=');
    UnescapeFails(piece, QueryComponent);
    UnescapeFails(k, QueryComponent);
    UnescapeFails(v, QueryComponent);
    CutIsSplit(piece, '=');
    if '=' in piece {
      var i :| Broken(piece, i);
      assert piece[|k|] == '=' && piece[|k| + 1..] == v;
      assert if i < |k| then Broken(k, i) else Broken(v, i - |k| - 1);
    }
  }

  /** Text that stands for itself in a query. */
  predicate Plain(s: string) {
    '%' !in s && '+' !in s && '&' !in s && '=' !in s && ';' !in s
  }

  lemma UnescapeOfPlain(s: string)
    requires '%' !in s && '+' !in s
    ensures Unescape(s, QueryComponent) == Some(s)
  {
    UnescapePlain(s, QueryComponent, "");
    assert s + "" == s;
  }

  /** A leading pair decides its own key and is passed over for every other key. */
  lemma QueryGetHead(k: string, v: string, decoded: string, rest: string, key: string)
    requires Plain(k) && k != ""
    requires '&' !in v && '=' !in v && ';' !in v && Unescape(v, QueryComponent) == Some(decoded)
    ensures QueryGet(k + "=" + v + "&" + rest, key) == if key == k then decoded else QueryGet(rest, key)
    ensures QueryGet(k + "=" + v, key) == if key == k then decoded else ""
  {
    var pair := k + "=" + v;
    CutHead(pair, '&', rest);
    assert k + "=" + v + "&" + rest == pair + ['&'] + rest;
    CutHead(k, '=', v);
    UnescapeOfPlain(k);
  }

  lemma QueryGetPlainHead(k: string, v: string, rest: string, key: string)
    requires Plain(k) && k != "" && Plain(v)
    ensures QueryGet(k + "=" + v + "&" + rest, key) == if key == k then v else QueryGet(rest, key)
    ensures QueryGet(k + "=" + v, key) == if key == k then v else ""
  {
    UnescapeOfPlain(v);
    QueryGetHead(k, v, v, rest, key);
  }

  function Pair(k: string, v: string): string {
    k + "=" + v
  }

  /** Two pairs at the front of a query are both read back; what follows does not matter. */
  lemma TwoPairs(k: string, v: string, l: string, w: string, decoded: string, more: string)
    requires Plain(k) && k != "" && Plain(v) && Plain(l) && l != "" && k != l
    requires '&' !in w && '=' !in w && ';' !in w && Unescape(w, QueryComponent) == Some(decoded)
    ensures QueryGet(Pair(k, v) + "&" + Pair(l, w), k) == v
    ensures QueryGet(Pair(k, v) + "&" + Pair(l, w), l) == decoded
    ensures QueryGet(Pair(k, v) + "&" + (Pair(l, w) + "&" + more), k) == v
    ensures QueryGet(Pair(k, v) + "&" + (Pair(l, w) + "&" + more), l) == decoded
  {
    QueryGetHead(l, w, decoded, more, l);
    QueryGetPlainHead(k, v, Pair(l, w), k);
    QueryGetPlainHead(k, v, Pair(l, w), l);
    QueryGetPlainHead(k, v, Pair(l, w) + "&" + more, k);
    QueryGetPlainHead(k, v, Pair(l, w) + "&" + more, l);
  }
}

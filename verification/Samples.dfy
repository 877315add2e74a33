/** The texts that the relay writes, as they stand in its URLs, messages and playlists. */
module Samples {
  import opened Text
  import opened Decimal
  import opened UriAttributes
  import opened UrlEncoding
  import opened Links
  import opened Signers
  import opened Requests
  import opened Tokens
  import opened Rewriter

  lemma TwoDigits(n: nat)
    requires n < 100
    ensures FormatNat(n) == if n < 10 then [DigitChar(n)] else [DigitChar(n / 10), DigitChar(n % 10)]
  {
  }

  lemma Numbers()
    ensures FormatInt(1790) == "1790" && FormatInt(-16) == "-16" && FormatInt(0) == "0"
    ensures ParseInt("1790") == Some(1790) && ParseInt("-16") == Some(-16) && ParseInt("12x") == None
  {
    TwoDigits(17);
    TwoDigits(16);
    assert FormatNat(179) == FormatNat(17) + [DigitChar(9)];
    assert FormatNat(1790) == FormatNat(179) + [DigitChar(0)];
    ParseFormat(1790);
    ParseFormat(-16);
    assert !IsDigit("12x"[2]);
  }

  /** The range of an int64, and what becomes of a sum beyond it. */
  lemma Limits(n: int)
    ensures IsInt64(n) <==> -9_223_372_036_854_775_808 <= n <= 9_223_372_036_854_775_807
    ensures WrapInt64(9_223_372_036_854_775_808) == -9_223_372_036_854_775_808
  {
  }

  predicate Spelled(s: string) {
    forall i | 0 <= i < |s| :: Unreserved(s[i])
  }

  /** A channel's URLs and the message that a token signs, for a slug that needs no escaping. */
  lemma ChannelTexts(slug: string, ref: string, sig: string)
    requires Spelled(slug)
    ensures AssetUrl(slug, ref, sig)
            == "/proxy/" + slug + "/" + "asset" + "?" + ("ref" + "=" + ref + "&" + ("sig" + "=" + sig))
    ensures ChannelUrl(slug, "index.m3u8") == "/proxy/" + slug + "/" + "index.m3u8"
    ensures PlaybackMessage(slug, 1790) == "play|" + slug + "|" + "1790"
  {
    EscapeUnreserved(slug, PathSegment);
    Numbers();
  }

  /** What is written for characters that do need it. */
  lemma EscapedTexts(mode: Mode)
    ensures EscapeByte('/', mode) == "%2F" && EscapeByte('?', mode) == "%3F" && EscapeByte('%', mode) == "%25"
    ensures EscapeByte(' ', mode) == if mode.PathSegment? then "%20" else "+"
    ensures EscapeByte('&', mode) == if mode.PathSegment? then "&" else "%26"
    ensures EscapeByte('+', mode) == if mode.PathSegment? then "+" else "%2B"
    ensures mode.PathSegment? ==> forall c | c in "$:=@" :: EscapeByte(c, mode) == [c]
    ensures mode.QueryComponent? ==> forall c | c in "$:=@,;" :: EscapeByte(c, mode) == HexPair(c as int)
  {
  }

  /** The token behind a link without and one with a query. */
  lemma TokenTexts(link: string, sig: string)
    requires Spelled(sig)
    ensures Appender(1790, sig)(link)
            == link + (if '?' in link then "&" else "?") + ("exp" + "=" + "1790" + "&" + ("sig" + "=" + sig))
  {
    EscapeUnreserved(sig, QueryComponent);
    Numbers();
  }

  /** An attribute of a tag is rewritten between its quotes. */
  lemma RewrittenAttribute(before: string, inner: string, rest: string, f: string -> string)
    requires before != "" && before[0] == '#' && 'U' !in before
    requires inner != "" && '"' !in inner && '"' !in rest
    ensures MapLine(before + ("URI=\"" + inner + "\"" + rest), f) == before + ("URI=\"" + f(inner) + "\"" + rest)
  {
    var attribute := "URI=\"" + inner + "\"" + rest;
    var line := before + attribute;
    assert LeadingSpace(line) == 0;
    TrimRightKeepsFirst(line);
    CopiesUntilU(before, attribute, f);
    MatchRequoted(inner, rest);
    QuoteFree(rest, f);
  }

  /** A URI line is rewritten as a whole. */
  lemma RewrittenLine(name: string, f: string -> string)
    requires Spelled(name) && name != ""
    ensures MapLine(name, f) == f(name)
  {
    assert Unreserved(name[0]) && Unreserved(name[|name| - 1]);
    assert LeadingSpace(name) == 0 && TrailingSpace(name) == 0;
    TrimSpaceTrims(name);
  }

  /** A blank line and a comment without an attribute are copied. */
  lemma CopiedLines(comment: string, f: string -> string)
    requires comment != "" && comment[0] == '#' && '"' !in comment
    ensures MapLine(comment, f) == comment && MapLine("", f) == ""
  {
    assert LeadingSpace(comment) == 0;
    TrimRightKeepsFirst(comment);
    QuoteFree(comment, f);
  }
}

/** Playback tokens: the pass that appends them to a playlist, and the check of a request. */
module Tokens {
  import opened Text
  import opened Decimal
  import opened UriAttributes
  import opened UrlEncoding
  import opened Links
  import opened Signers

  function AppendQuery(raw: string, query: string): string {
    if '?' in raw then raw + "&" + query else raw + "?" + query
  }

  function TokenQuery(exp: int, sig: string): string {
    Pair("exp", FormatInt(exp)) + "&" + Pair("sig", Escape(sig, QueryComponent))
  }

  function Appender(exp: int, sig: string): string -> string {
    x => AppendQuery(x, TokenQuery(exp, sig))
  }

  /** The text that appendPlaybackTokenToSegments returns. */
  function TokenPass(playlist: string, exp: int, sig: string): string {
    if exp == 0 || sig == "" then playlist
    else Join(MapLines(Split(playlist, '\n'), Appender(exp, sig)), '\n')
  }

  lemma {:induction false} SameFunction(s: string, f: string -> string, g: string -> string)
    requires forall x :: f(x) == g(x)
    ensures ReplaceAll(s, f) == ReplaceAll(s, g)
    decreases |s|
  {
    if s == "" {
    } else if MatchesHere(s) {
      SameFunction(AfterMatch(s), f, g);
    } else {
      SameFunction(s[1..], f, g);
    }
  }

  /** The loop's body, for one line. */
  method AppendToLine(line: string, exp: int, sig: string, query: string) returns (r: string)
    requires query == TokenQuery(exp, sig)
    ensures r == MapLine(line, Appender(exp, sig))
  {
    var trimmed := TrimSpace(line);
    if trimmed == "" || "#" <= trimmed {
      r := ReplaceAll(line, x => AppendQuery(x, query));
      SameFunction(line, x => AppendQuery(x, query), Appender(exp, sig));
    } else {
      r := AppendQuery(line, query);
    }
  }

  lemma Overwrite(done: seq<string>, todo: seq<string>, i: nat)
    requires i < |done| == |todo|
    ensures (done[..i] + todo[i..])[i := done[i]] == done[..i + 1] + todo[i + 1..]
  {
  }

  method AppendPlaybackTokenToSegments(playlist: string, exp: int, sig: string) returns (text: string)
    ensures text == TokenPass(playlist, exp, sig)
    ensures exp == 0 || sig == "" ==> text == playlist
  {
    if exp == 0 || sig == "" {
      return playlist;
    }
    var query := TokenQuery(exp, sig);
    var parts := Split(playlist, '\n');
    var lines := new string[|parts|](i requires 0 <= i < |parts| => parts[i]);
    ghost var mapped := MapLines(parts, Appender(exp, sig));
    var i := 0;
    while i < lines.Length
      invariant 0 <= i <= lines.Length
      invariant lines[..] == mapped[..i] + parts[i..]
    {
      assert lines[i] == parts[i];
      Overwrite(mapped, parts, i);
      lines[i] := AppendToLine(lines[i], exp, sig, query);
      i := i + 1;
    }
    assert lines[..] == mapped[..i] == mapped;
    text := Join(lines[..], '\n');
  }

  // ---------------------------------------------------------------- what the pass does to links

  lemma TokenQueryIsUrlText(exp: int, sig: string)
    ensures UrlText(TokenQuery(exp, sig))
  {
    EscapeIsUrlText(sig, QueryComponent);
    assert UrlText("exp") && UrlText("sig") && UrlText("&") && UrlText("=");
    assert UrlText(FormatInt(exp));
  }

  /** Appending URL text to a trimmed line or to a capture yields such a line or capture again. */
  lemma Appended(x: string, q: string, c: char)
    requires x != "" && q != "" && UrlText(q)
    ensures AppendQuery(x, q)[0] == x[0]
    ensures Trimmed(x) ==> Trimmed(AppendQuery(x, q))
    ensures c !in x && !UrlChar(c) && c != '?' ==> c !in AppendQuery(x, q)
  {
    var y := AppendQuery(x, q);
    var mark := y[|x|];
    assert y == x + [mark] + q;
    assert UrlChar(y[|y| - 1]);
    if Trimmed(x) {
      assert LeadingSpace(x) == 0;
      assert |x| >= 3 ==> y[1] == x[1] && y[2] == x[2];
      assert |x| >= 2 ==> y[1] == x[1];
    }
  }

  lemma AppendedUri(x: string, q: string)
    requires IsUri(x) && Trimmed(x) && q != "" && UrlText(q)
    ensures IsUri(AppendQuery(x, q)) && Trimmed(AppendQuery(x, q))
  {
    TrimSpaceTrims(x);
    Appended(x, q, '"');
    TrimSpaceTrims(AppendQuery(x, q));
  }

  lemma {:induction false} AppenderKeepsLinks(exp: int, sig: string)
    ensures Requotable(Appender(exp, sig))
    ensures UriToUri(Appender(exp, sig))
  {
    var f, q := Appender(exp, sig), TokenQuery(exp, sig);
    TokenQueryIsUrlText(exp, sig);
    assert q != "" by {
      assert q[0] == 'e';
    }
    forall x | Quotable(x)
      ensures Quotable(f(x))
    {
      Appended(x, q, '"');
    }
    forall x | IsUri(x) && Trimmed(x)
      ensures IsUri(f(x)) && Trimmed(f(x))
    {
      AppendedUri(x, q);
    }
  }

  lemma {:induction false} AppenderKeepsOut(line: string, exp: int, sig: string, c: char)
    requires c !in line && !UrlChar(c) && c != '?'
    ensures c !in MapLine(line, Appender(exp, sig))
  {
    var f, q := Appender(exp, sig), TokenQuery(exp, sig);
    TokenQueryIsUrlText(exp, sig);
    forall x | c !in x
      ensures c !in f(x)
    {
      if x != "" {
        Appended(x, q, c);
      }
    }
    ReplaceAllKeepsOut(line, f, c);
  }

  lemma TokenPassLines(playlist: string, exp: int, sig: string)
    requires exp != 0 && sig != ""
    ensures Split(TokenPass(playlist, exp, sig), '\n') == MapLines(Split(playlist, '\n'), Appender(exp, sig))
  {
    var lines, f := Split(playlist, '\n'), Appender(exp, sig);
    SplitIsFree(playlist, '\n');
    forall i | 0 <= i < |lines|
      ensures '\n' !in MapLines(lines, f)[i]
    {
      AppenderKeepsOut(lines[i], exp, sig, '\n');
    }
    SplitJoin(MapLines(lines, f), '\n');
  }

  /** Section 4.1 of RFC 8216 from the player's side: the pass keeps the number and the order of
      the links and appends the token to each. */
  lemma TokenPassLinks(playlist: string, exp: int, sig: string)
    requires UrisTrimmed(Split(playlist, '\n')) && exp != 0 && sig != ""
    ensures PlaylistLinks(TokenPass(playlist, exp, sig)) == MapAll(Appender(exp, sig), PlaylistLinks(playlist))
  {
    TokenPassLines(playlist, exp, sig);
    AppenderKeepsLinks(exp, sig);
    MapLinesLinks(Split(playlist, '\n'), Appender(exp, sig));
  }

  // ---------------------------------------------------------------- checking a request

  datatype Check = Waived | Accepted(exp: int, sig: string) | Refused

  /** What becomes of a request that needs a token. */
  function CheckToken(signer: Signer, slug: string, query: string, now: int): Check {
    var expStr, sig := QueryGet(query, "exp"), QueryGet(query, "sig");
    if expStr == "" || sig == "" then Refused
    else
      var exp := ParseInt(expStr);
      if exp.None? || now > exp.value || !signer.VerifyPlayback(slug, sig, exp.value) then Refused
      else Accepted(exp.value, sig)
  }

  /** `required` is the channel's flag, None when the channel cannot be looked up.  Only a session or a
      channel that requires no token waives the check. */
  method RequirePlaybackToken(signer: Signer, session: bool, required: Option<bool>, slug: string, query: string,
                              now: int)
    returns (check: Check)
    ensures check == Waived <==> session || required == Some(false)
    ensures check == Waived || check == CheckToken(signer, slug, query, now)
  {
    if session {
      return Waived;
    }
    if required.Some? && !required.value {
      return Waived;
    }
    var expStr, sig := QueryGet(query, "exp"), QueryGet(query, "sig");
    if expStr == "" || sig == "" {
      return Refused;
    }
    var exp := ParseInt(expStr);
    if exp.None? {
      return Refused;
    }
    if now > exp.value {
      return Refused;
    }
    if !signer.VerifyPlayback(slug, sig, exp.value) {
      return Refused;
    }
    check := Accepted(exp.value, sig);
  }

  lemma FormattedIsPlain(exp: int)
    ensures Plain(FormatInt(exp))
  {
  }

  lemma QuerySeparators()
    ensures forall c | c == '&' || c == '=' || c == ';' :: !Unreserved(c) && c !in "+%"
  {
  }

  lemma EscapedSignature(sig: string)
    requires IsBytes(sig)
    ensures var v := Escape(sig, QueryComponent);
            '&' !in v && '=' !in v && ';' !in v && Unescape(v, QueryComponent) == Some(sig)
  {
    var v := Escape(sig, QueryComponent);
    EscapeIsUrlText(sig, QueryComponent);
    QuerySeparators();
    assert Unescape(v, QueryComponent) == Some(sig) by {
      UnescapeEscape(sig, QueryComponent, "");
      assert v + "" == v && sig + "" == sig;
    }
  }

  /** The token's two parameters come back from its query, whatever bytes the signature holds. */
  lemma {:induction false} TokenQueryRoundTrip(exp: int, sig: string)
    requires IsInt64(exp) && IsBytes(sig)
    ensures QueryGet(TokenQuery(exp, sig), "sig") == sig
    ensures QueryGet(TokenQuery(exp, sig), "exp") == FormatInt(exp)
    ensures ParseInt(FormatInt(exp)) == Some(exp)
  {
    var e, v := FormatInt(exp), Escape(sig, QueryComponent);
    FormattedIsPlain(exp);
    EscapedSignature(sig);
    TwoPairs("exp", e, "sig", v, sig, "");
    ParseFormat(exp);
  }

  /** A token minted for one slug and expiry is accepted for another slug exactly until the expiry
      and only if the MACs agree; for its own slug, exactly until the expiry. */
  lemma {:induction false} MintedTokenAccepted(signer: Signer, slug: string, slug': string, exp: int, now: int)
    requires signer.Valid() && IsInt64(exp)
    ensures var sig := signer.SignPlayback(slug, exp);
            var check := CheckToken(signer, slug', TokenQuery(exp, sig), now);
            && (check == Accepted(exp, sig) <==> now <= exp && signer.SignPlayback(slug', exp) == sig)
            && (check != Accepted(exp, sig) ==> check == Refused)
            && (slug == slug' ==> (check == Accepted(exp, sig) <==> now <= exp))
  {
    var sig := signer.SignPlayback(slug, exp);
    assert IsHex64(signer.mac(PlaybackMessage(slug, exp)));
    assert sig != "" && IsBytes(sig);
    TokenQueryRoundTrip(exp, sig);
    FormattedIsPlain(exp);
  }

  /** What a token is minted for, and what a request asks for. */
  datatype Grant = Grant(slug: string, exp: int)

  /** The MAC tells the messages of these grants apart. */
  ghost predicate MacSeparates(signer: Signer, grants: set<Grant>) {
    forall g, h | g in grants && h in grants ::
      signer.SignPlayback(g.slug, g.exp) == signer.SignPlayback(h.slug, h.exp) ==>
        PlaybackMessage(g.slug, g.exp) == PlaybackMessage(h.slug, h.exp)
  }

  /** A minted signature opens nothing but what it was minted for: however the query of a request
      that carries it is written, and whatever expiry it names, the request is accepted only for the
      token's own slug, under the token's own expiry and until then.  The MAC need only tell apart
      the grants that were minted and asked for. */
  lemma {:induction false} MintedTokenIsBound(signer: Signer, grants: set<Grant>, minted: Grant, slug: string,
                                              query: string, now: int)
    requires MacSeparates(signer, grants) && minted in grants && IsInt64(minted.exp)
    requires QueryGet(query, "sig") == signer.SignPlayback(minted.slug, minted.exp)
    requires ParseInt(QueryGet(query, "exp")).Some? ==> Grant(slug, ParseInt(QueryGet(query, "exp")).value) in grants
    ensures CheckToken(signer, slug, query, now) != Refused ==>
              slug == minted.slug && ParseInt(QueryGet(query, "exp")) == Some(minted.exp) && now <= minted.exp
  {
    var exp := ParseInt(QueryGet(query, "exp"));
    if exp.Some? {
      PlaybackMessageInjective(slug, exp.value, minted.slug, minted.exp);
      assert Grant(slug, exp.value) in grants;
    }
  }

  /** In particular another channel refuses it, for every expiry that a request may carry. */
  lemma {:induction false} OtherChannelsRefuse(signer: Signer, grants: set<Grant>, minted: Grant, slug: string,
                                               exp: int, now: int)
    requires signer.Valid() && MacSeparates(signer, grants) && minted in grants && Grant(slug, exp) in grants
    requires IsInt64(minted.exp) && IsInt64(exp)
    ensures var sig := signer.SignPlayback(minted.slug, minted.exp);
            CheckToken(signer, slug, TokenQuery(exp, sig), now)
            == if slug == minted.slug && exp == minted.exp && now <= exp then Accepted(exp, sig) else Refused
  {
    var sig := signer.SignPlayback(minted.slug, minted.exp);
    assert IsHex64(signer.mac(PlaybackMessage(minted.slug, minted.exp)));
    assert sig != "" && IsBytes(sig);
    TokenQueryRoundTrip(exp, sig);
    FormattedIsPlain(exp);
    if slug != minted.slug || exp != minted.exp {
      MintedTokenIsBound(signer, grants, minted, slug, TokenQuery(exp, sig), now);
    }
  }

  /** The hypothesis can be met: two grants are told apart by some MAC with 64 hexadecimal digits. */
  lemma SomeMacSeparates(g: Grant, h: Grant) returns (signer: Signer)
    ensures signer.Valid() && MacSeparates(signer, {g, h})
  {
    var zeros, message := seq(64, _ => '0'), PlaybackMessage(g.slug, g.exp);
    var ones := seq(64, _ => '1');
    assert IsHex64(zeros) && IsHex64(ones) && zeros[0] != ones[0];
    signer := Signer(_ => zeros, x => if x == message then zeros else ones);
  }
}

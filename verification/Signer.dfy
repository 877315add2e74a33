/** relay/signer.go.  SHA-256 and HMAC under the fixed secret are parameters of the model. */
module Signers {
  import opened Text
  import opened Decimal

  datatype Signer = Signer(hash: string -> string, mac: string -> string) {
    /** Both digests print as 64 lower-case hexadecimal digits. */
    ghost predicate Valid() {
      && (forall v :: IsHex64(hash(v)))
      && (forall v :: IsHex64(mac(v)))
    }

    function Ref(value: string): string {
      hash(value)
    }

    function Sign(ref: string): string {
      mac(ref)
    }

    predicate Verify(ref: string, signature: string) {
      Sign(ref) == signature
    }

    function SignPlayback(slug: string, exp: int): string {
      Sign(PlaybackMessage(slug, exp))
    }

    predicate VerifyPlayback(slug: string, signature: string, exp: int) {
      Verify(PlaybackMessage(slug, exp), signature)
    }
  }

  predicate IsHex64(s: string) {
    |s| == 64 && forall i | 0 <= i < 64 :: '0' <= s[i] <= '9' || 'a' <= s[i] <= 'f'
  }

  function PlaybackMessage(slug: string, exp: int): string {
    "play|" + slug + "|" + FormatInt(exp)
  }

  /** Neither slug nor expiry can be traded for the other, even when the slug contains the
      separator: the expiry is what follows the last separator. */
  lemma PlaybackMessageInjective(slug: string, exp: int, slug': string, exp': int)
    requires IsInt64(exp) && IsInt64(exp')
    ensures PlaybackMessage(slug, exp) == PlaybackMessage(slug', exp') <==> slug == slug' && exp == exp'
  {
    var m, m' := PlaybackMessage(slug, exp), PlaybackMessage(slug', exp');
    if m == m' {
      LastSeparator("play|" + slug, FormatInt(exp), "play|" + slug', FormatInt(exp'));
      FormatInjective(exp, exp');
      assert slug == ("play|" + slug)[5..] == ("play|" + slug')[5..] == slug';
    }
  }

  lemma LastSeparator(a: string, d: string, a': string, d': string)
    requires '|' !in d && '|' !in d' && a + "|" + d == a' + "|" + d'
    ensures a == a' && d == d'
  {
    NoSeparatorAfter(a, d);
    NoSeparatorAfter(a', d');
    var m := a + "|" + d;
    var m' := a' + "|" + d';
    assert m == m' && m[|a|] == '|' && m'[|a'|] == '|';
    assert !(|a| < |a'|) && !(|a'| < |a|);
    assert m[..|a|] == a && m[..|a'|] == a' && m[|a| + 1..] == d && m[|a'| + 1..] == d';
  }

  lemma NoSeparatorAfter(a: string, d: string)
    requires '|' !in d
    ensures var m := a + "|" + d; forall i | |a| < i < |m| :: m[i] != '|'
  {
  }

  /** The messages of playback tokens and of asset references never coincide.  A signature of one
      kind therefore passes for the other only where the MAC collides on two different messages. */
  lemma PlaybackMessageIsNoRef(signer: Signer, slug: string, exp: int, url: string)
    requires signer.Valid()
    ensures PlaybackMessage(slug, exp) != signer.Ref(url)
  {
    assert PlaybackMessage(slug, exp)[0] == 'p';
    assert IsHex64(signer.hash(url));
  }
}

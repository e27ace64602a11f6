/** The location the browser is sent to: the oauth2 library's authorization
    URL for the run's `state`, with the OpenID Connect `nonce` appended
    (section 3.1.2.1 of OpenID Connect Core 1.0). */
module Authorization {
  import opened Text
  import opened ClientSetup

  const NonceParam := "&nonce="

  /** `authCodeURL` stands for `oauth2.Config.AuthCodeURL`, whose code is
      not part of this model. The location begins with its URL and ends with
      the nonce, with nothing but the `nonce` key between. */
  function Location(authCodeURL: (ClientConfig, string) -> string, conf: ClientConfig, state: string, nonce: string): (loc: string)
    ensures |loc| == |authCodeURL(conf, state)| + |NonceParam| + |nonce|
    ensures loc[..|authCodeURL(conf, state)|] == authCodeURL(conf, state)
    ensures loc[|authCodeURL(conf, state)|..|authCodeURL(conf, state)| + |NonceParam|] == NonceParam
    ensures loc[|loc| - |nonce|..] == nonce
  {
    authCodeURL(conf, state) + NonceParam + nonce
  }

  /** With a generated nonce, `nonce=<nonce>` is the last query component
      of the location, whatever the library's URL holds. */
  lemma NonceIsLastParameter(authCodeURL: (ClientConfig, string) -> string, conf: ClientConfig, state: string, nonce: string)
    requires IsCorrelationToken(nonce)
    ensures AfterLastAmpersand(Location(authCodeURL, conf, state, nonce)) == "nonce=" + nonce
  {
    CorrelationTokenHasNoAmpersand(nonce);
    assert '&' !in "nonce=" + nonce;
    assert Location(authCodeURL, conf, state, nonce) == authCodeURL(conf, state) + "&" + ("nonce=" + nonce);
    AfterLastAmpersandOfAppend(authCodeURL(conf, state), "nonce=" + nonce);
  }

  /** The nonce can be read back from the location: two locations for the
      same configuration and state are equal only for equal nonces. */
  lemma LocationDeterminesNonce(authCodeURL: (ClientConfig, string) -> string, conf: ClientConfig, state: string, n1: string, n2: string)
    requires Location(authCodeURL, conf, state, n1) == Location(authCodeURL, conf, state, n2)
    ensures n1 == n2
  {
    var base := authCodeURL(conf, state) + NonceParam;
    assert Location(authCodeURL, conf, state, n1)[|base|..] == n1;
    assert Location(authCodeURL, conf, state, n2)[|base|..] == n2;
  }
}

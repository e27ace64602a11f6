/** The decision the `/callback` handler of `hydra token user` takes on the
    provider's redirect, and the response bodies it writes, as values.
    This is the anti-forgery `state` check of the authorization code grant
    (section 4.1.2 of RFC 6749; error response per section 4.1.2.1, the
    cross-site request forgery rationale per section 10.12). */
module Callback {
  import opened Text

  datatype Option<T> = None | Some(value: T)

  /** The redirect's query: parameter name to its first value. */
  type Query = map<string, string>

  /** `url.Values.Get`: the value of `key`, or "" when it is absent. */
  function Param(q: Query, key: string): (v: string)
    ensures key in q ==> v == q[key]
    ensures key !in q ==> v == ""
  {
    if key in q then q[key] else ""
  }

  /** Which of the three ways the handler goes. */
  datatype Verdict =
    | ProviderDenied(description: string)
    | StateMismatch(expected: string, received: string)
    | Exchange(code: string)

  /** Validation of the redirect against the `state` generated for this run.
      A non-empty `error` wins over everything; otherwise the `state`
      parameter must equal the generated one exactly; only then is the
      `code` handed on, unchecked. */
  function Validate(q: Query, state: string): (v: Verdict)
    ensures v.ProviderDenied? <==> Param(q, "error") != ""
    ensures v.ProviderDenied? ==> v.description == Param(q, "error_description")
    ensures v.StateMismatch? <==> Param(q, "error") == "" && Param(q, "state") != state
    ensures v.StateMismatch? ==> v.expected == state && v.received == Param(q, "state")
    ensures v.Exchange? <==> Param(q, "error") == "" && Param(q, "state") == state
    ensures v.Exchange? ==> v.code == Param(q, "code")
  {
    if Param(q, "error") != "" then ProviderDenied(Param(q, "error_description"))
    else if Param(q, "state") != state then StateMismatch(state, Param(q, "state"))
    else Exchange(Param(q, "code"))
  }

  const DeniedPrefix := "Got error: "
  const MismatchPrefix := "States do not match. Expected "
  const MismatchSeparator := ", got "

  /** The plain-text body sent with status 500 on the two refusal paths: the
      provider's description after a fixed prefix, or the expected state after
      a fixed prefix and the received state at the end. */
  function ErrorBody(v: Verdict): (body: string)
    requires !v.Exchange?
    ensures v.ProviderDenied? ==>
      && |body| == |DeniedPrefix| + |v.description|
      && body[..|DeniedPrefix|] == DeniedPrefix
      && body[|DeniedPrefix|..] == v.description
    ensures v.StateMismatch? ==>
      && |body| == |MismatchPrefix| + |v.expected| + |MismatchSeparator| + |v.received|
      && body[..|MismatchPrefix|] == MismatchPrefix
      && body[|MismatchPrefix|..|MismatchPrefix| + |v.expected|] == v.expected
      && body[|MismatchPrefix| + |v.expected|..|body| - |v.received|] == MismatchSeparator
      && body[|body| - |v.received|..] == v.received
  {
    match v
    case ProviderDenied(d) => DeniedPrefix + d
    case StateMismatch(e, g) => MismatchPrefix + e + MismatchSeparator + g
  }

  /** What the token endpoint returned: `token.Expiry` is kept as its printed
      form, and the `id_token` extra as present or absent. */
  datatype Token = Token(accessToken: string, refreshToken: string, expiry: string, idToken: Option<string>)

  /** The outcome of `conf.Exchange` for one code. */
  datatype Exchanged = Granted(token: Token) | Rejected(error: string)

  const PageOpen := "\n<html><head></head><body>\n<ul>\n\t<li>Access Token: <code>"
  const AccessToRefresh := "</code></li>\n\t<li>Refresh Token: <code>"
  const RefreshToExpiry := "</code></li>\n\t<li>Expires in: <code>"
  const ItemClose := "</code></li>\n"
  const IdTokenOpen := "<li>ID Token: <code>"
  const IdTokenClose := "</code></li>"
  const Closing := "</ul></body></html>"

  /** The first write of the success page: the opening HTML and the three
      items every token has. */
  function TokenList(t: Token): (r: string)
    ensures |r| == |PageOpen| + |t.accessToken| + |AccessToRefresh + t.refreshToken + RefreshToExpiry| + |t.expiry + ItemClose|
    ensures r[..|PageOpen|] == PageOpen
    ensures r[|PageOpen|..|PageOpen| + |t.accessToken|] == t.accessToken
    ensures r[|PageOpen| + |t.accessToken|..|r| - |t.expiry + ItemClose|] == AccessToRefresh + t.refreshToken + RefreshToExpiry
    ensures r[|r| - |t.expiry + ItemClose|..] == t.expiry + ItemClose
  {
    SplitSeven(PageOpen, t.accessToken, AccessToRefresh, t.refreshToken, RefreshToExpiry, t.expiry, ItemClose);
    PageOpen + t.accessToken + AccessToRefresh + t.refreshToken + RefreshToExpiry + t.expiry + ItemClose
  }

  /** The second write, made only when the `id_token` extra is present: the
      identity-token item, or nothing without an `id_token`. */
  function OptionalIdTokenItem(t: Token): (r: string)
    ensures r != "" <==> t.idToken.Some?
    ensures t.idToken.Some? ==>
      && |r| >= |IdTokenOpen| + |IdTokenClose|
      && r[..|IdTokenOpen|] == IdTokenOpen
      && r[|IdTokenOpen|..|r| - |IdTokenClose|] == t.idToken.value
      && r[|r| - |IdTokenClose|..] == IdTokenClose
  {
    if t.idToken.Some? then IdTokenOpen + t.idToken.value + IdTokenClose else ""
  }

  /** The success page as the three writes leave it: it opens with the token
      list, closes with `</ul></body></html>`, and has anything in between if
      and only if an identity token is present. */
  function SuccessBody(t: Token): (body: string)
    ensures |body| >= |TokenList(t)| + |Closing|
    ensures body[..|TokenList(t)|] == TokenList(t)
    ensures body[|TokenList(t)|..|body| - |Closing|] == OptionalIdTokenItem(t)
    ensures body[|body| - |Closing|..] == Closing
    ensures |body| > |TokenList(t)| + |Closing| <==> t.idToken.Some?
  {
    TokenList(t) + OptionalIdTokenItem(t) + Closing
  }

  // ---- Properties of the decision ----

  /** A provider error is reported whatever `state` the redirect carries, and
      the code is never exchanged. */
  lemma DenialWhateverState(q: Query, state: string, other: string)
    requires Param(q, "error") != ""
    ensures Validate(q, state) == Validate(q, other) == ProviderDenied(Param(q, "error_description"))
    ensures ErrorBody(Validate(q, state)) == DeniedPrefix + Param(q, "error_description")
  {
  }

  /** Without an error, any `state` other than the generated one is refused
      and the code is never exchanged. */
  lemma ForeignStateRefused(q: Query, state: string)
    requires Param(q, "error") == "" && Param(q, "state") != state
    ensures !Validate(q, state).Exchange?
    ensures ErrorBody(Validate(q, state)) == MismatchPrefix + state + MismatchSeparator + Param(q, "state")
  {
  }

  /** An absent parameter and an empty one are read alike. */
  lemma AbsentReadsAsEmpty(q: Query, key: string, state: string)
    ensures Validate(q - {key}, state) == Validate(q[key := ""], state)
  {
    assert Param(q - {key}, key) == Param(q[key := ""], key);
  }

  /** A redirect without `state` (and without an error) is a mismatch
      whenever the expected state is non-empty, as a generated one always is. */
  lemma MissingStateRefused(q: Query, state: string)
    requires state != ""
    requires Param(q, "error") == "" && "state" !in q
    ensures Validate(q, state) == StateMismatch(state, "")
  {
  }

  /** Parameters other than the four the handler reads, `nonce` among them,
      never change the decision. */
  lemma OtherParamsIgnored(q: Query, key: string, value: string, state: string)
    requires key !in {"error", "error_description", "state", "code"}
    ensures Validate(q[key := value], state) == Validate(q, state)
  {
    assert Param(q[key := value], "error") == Param(q, "error");
    assert Param(q[key := value], "error_description") == Param(q, "error_description");
    assert Param(q[key := value], "state") == Param(q, "state");
    assert Param(q[key := value], "code") == Param(q, "code");
  }

  // ---- Properties of the bodies ----

  /** The mismatch body names both the expected and the received state. */
  lemma MismatchBodyNamesBothStates(expected: string, received: string)
    ensures Contains(ErrorBody(StateMismatch(expected, received)), expected)
    ensures Contains(ErrorBody(StateMismatch(expected, received)), received)
  {
    var body := ErrorBody(StateMismatch(expected, received));
    var i := |MismatchPrefix|;
    var j := |MismatchPrefix + expected + MismatchSeparator|;
    assert body[i..i + |expected|] == expected;
    assert body[j..j + |received|] == received;
    ContainsAt(body, expected, i);
    ContainsAt(body, received, j);
  }

  /** The first write names the access token, the refresh token and the expiry. */
  lemma TokenListNamesToken(t: Token)
    ensures Contains(TokenList(t), t.accessToken)
    ensures Contains(TokenList(t), t.refreshToken)
    ensures Contains(TokenList(t), t.expiry)
  {
    ContainsEachOfThree(PageOpen, t.accessToken, AccessToRefresh, t.refreshToken, RefreshToExpiry, t.expiry, ItemClose);
  }

  /** The success page lists the access token, the refresh token and the
      expiry, and the identity token when there is one. */
  lemma SuccessBodyListsToken(t: Token)
    ensures Contains(SuccessBody(t), t.accessToken)
    ensures Contains(SuccessBody(t), t.refreshToken)
    ensures Contains(SuccessBody(t), t.expiry)
    ensures t.idToken.Some? ==> Contains(SuccessBody(t), t.idToken.value)
  {
    TokenListNamesToken(t);
    ContainsExtend(TokenList(t), t.accessToken, OptionalIdTokenItem(t), Closing);
    ContainsExtend(TokenList(t), t.refreshToken, OptionalIdTokenItem(t), Closing);
    ContainsExtend(TokenList(t), t.expiry, OptionalIdTokenItem(t), Closing);
    if t.idToken.Some? {
      ContainsInMiddle(TokenList(t), IdTokenOpen, t.idToken.value, IdTokenClose, Closing);
    }
  }

  // ---- End-to-end scenarios ----

  lemma ScenarioMatchingState()
    ensures Validate(map["state" := "abcdefghijklmnopqrstuvwx", "code" := "XYZ"], "abcdefghijklmnopqrstuvwx")
            == Exchange("XYZ")
  {
  }

  lemma ScenarioWrongState()
    ensures Validate(map["state" := "WRONG", "code" := "XYZ"], "abcdefghijklmnopqrstuvwx")
            == StateMismatch("abcdefghijklmnopqrstuvwx", "WRONG")
  {
  }

  lemma ScenarioUserCancelled()
    ensures Validate(map["error" := "access_denied", "error_description" := "User cancelled"], "abcdefghijklmnopqrstuvwx")
            == ProviderDenied("User cancelled")
  {
  }
}

# hydra `token user`: the callback check and client defaulting

`hydra token user` runs the OAuth2 authorization code flow once. It settles
the client configuration from flags and the configuration file, generates a
`state` and a `nonce`, and sends the browser to the provider's authorization
URL with the nonce appended. It then listens on `/callback` for the redirect.
The handler refuses a provider error or a foreign `state` with status 500. It
exchanges only the code of a valid redirect, answers with an HTML page listing
the tokens, and schedules the listener's shutdown.

This project models that decision logic in Dafny:

- `text.dfy` (module `Text`): the generated-token shape (24 lowercase letters), a
  substring predicate, and the last `&`-separated query component.
- `client_setup.dfy` (module `ClientSetup`): the flag-or-configuration
  defaulting. This is a method that reassigns its locals one by one, as the
  command does.
- `authorization.dfy` (module `Authorization`): the authorization location,
  `AuthCodeURL(state) + "&nonce=" + nonce`.
- `callback.dfy` (module `Callback`): the validation of the redirect as a pure
  function over the query map. It also holds the refusal bodies, the success
  page and their properties, including the three end-to-end scenarios (good
  state, wrong state, user cancelled).
- `callback_server.dfy` (module `CallbackServer`): the handler as a class.
  - Its method writes the response through a `ResponseWriter` class with net/http's
    rules: the first `WriteHeader` fixes the status, and a `Write` before any
    header sends 200.
  - It records the codes handed to the exchange in a ghost log.
  - It sets `shutdownScheduled` on success.

Code the model cannot see is passed in as function-valued parameters:
- `JoinURLStrings` is `join`.
- `oauth2.Config.AuthCodeURL` is `authCodeURL`.
- `conf.Exchange` is `exchange`, which returns `Granted(token)` or `Rejected(error)`.

The query is a map from parameter name to its first value. A missing key reads
as `""`, as `url.Values.Get` does.

The provider-error and state-mismatch paths return without scheduling a
shutdown, so the listener keeps serving after a refusal. The code tests `error`
for a non-empty value, so `error=` with no value counts as no error.

## Model

| member | source | states |
|---|---|---|
| `Callback.Param` | cmd/token_user.go:101-119 | `url.Values.Get`: the value of a present key, and `""` for an absent one |
| `Callback.Validate` | cmd/token_user.go:100-120 | There are three outcomes, each stated as an if-and-only-if: provider error exactly when `error` is non-empty (carrying `error_description`); mismatch exactly when there is no error and `state` differs from the generated one (carrying both values); exchange exactly when there is no error and the state matches, carrying exactly the `code` parameter |
| `Callback.DenialWhateverState` | cmd/token_user.go:101-108 | A non-empty `error` gives the same provider-error outcome for any generated state, never an exchange, and the body is `"Got error: "` followed by the description |
| `Callback.ForeignStateRefused` | cmd/token_user.go:110-117 | With no error, a state other than the generated one never reaches the exchange, and the body is `"States do not match. Expected <generated>, got <received>"` |
| `Callback.AbsentReadsAsEmpty` | cmd/token_user.go:101-119 | Removing any parameter and setting it to `""` lead to the same decision |
| `Callback.MissingStateRefused` | cmd/token_user.go:110-117 | With a non-empty expected state (a generated one always is) and no error, a redirect without `state` is a mismatch with received value `""` |
| `Callback.OtherParamsIgnored` | cmd/token_user.go:100-120 | Setting any parameter other than `error`, `error_description`, `state` and `code` (for example `nonce`) never changes the decision |
| `Callback.ErrorBody` | cmd/token_user.go:102-115 | The denial body is `"Got error: "` followed by the provider's description, which can be read back after the prefix. The mismatch body is `"States do not match. Expected "`, then the expected state, then `", got "`, and ends with the received state |
| `Callback.MismatchBodyNamesBothStates` | cmd/token_user.go:111-115 | The mismatch body contains both the expected and the received state |
| `Callback.TokenList` | cmd/token_user.go:127-133 | The first write opens with the HTML head and the opening of the access-token item; the access token follows, then the refresh token inside its own "Refresh Token" item, then the expiry in the "Expires in" item and its closing tags (tabs and newlines as in the raw string) |
| `Callback.TokenListNamesToken` | cmd/token_user.go:127-133 | The first write of the success page contains the access token, the refresh token and the expiry |
| `Callback.OptionalIdTokenItem` | cmd/token_user.go:135-139 | The second write is non-empty if and only if the `id_token` extra is present, and then it holds that value between `<li>ID Token: <code>` and `</code></li>` |
| `Callback.SuccessBodyListsToken` | cmd/token_user.go:127-140 | The success page contains the access token, the refresh token and the expiry, and also the identity token when one is present |
| `Callback.SuccessBody` | cmd/token_user.go:127-140 | The success page starts with the token list and ends with `</ul></body></html>`, and what lies between is exactly the second write: the ID-token item when the `id_token` extra is present, nothing otherwise. It is longer than list and closing tags together if and only if the extra is present |
| `Callback.ScenarioMatchingState` | cmd/token_user.go:110-120 | State `abcdefghijklmnopqrstuvwx` with code `XYZ` leads to an exchange of `XYZ` |
| `Callback.ScenarioWrongState` | cmd/token_user.go:110-117 | State `WRONG` leads to a mismatch naming the generated and the received state |
| `Callback.ScenarioUserCancelled` | cmd/token_user.go:101-108 | `error=access_denied` with description `User cancelled` leads to a provider error carrying `User cancelled` |
| `ClientSetup.Configure` | cmd/token_user.go:51-80 | Client id, secret, token URL and auth URL each keep a non-empty flag and otherwise fall back: to the configuration file's id and secret, and to the cluster URL joined with `/oauth2/token` and `/oauth2/auth`. The redirect URL and scopes pass through unchanged |
| `ClientSetup.ConfigureIdempotent` | cmd/token_user.go:58-69 | Passing the settled configuration back in as flags settles on the same configuration |
| `ClientSetup.SettledEmptyOnlyIfBothEmpty` | cmd/token_user.go:58-63 | A settled value is empty if and only if both the flag and its fallback are empty |
| `Authorization.Location` | cmd/token_user.go:88 | The location starts with the library's authorization URL for the state and ends with the nonce, and only `&nonce=` lies between them |
| `Authorization.NonceIsLastParameter` | cmd/token_user.go:82-88 | For a generated (24 lowercase letters) nonce, the last `&`-separated component of the location is exactly `nonce=<nonce>`, whatever the library's URL contains |
| `Authorization.LocationDeterminesNonce` | cmd/token_user.go:88 | For a given configuration and state, equal locations mean equal nonces |
| `CallbackServer.ResponseWriter.WriteHeader` | cmd/token_user.go:105 | Only the first header sets the status. The body is unchanged |
| `CallbackServer.ResponseWriter.Write` | cmd/token_user.go:106 | Appends to the body, and sends status 200 if no header was written before |
| `CallbackServer.Refuse` | cmd/token_user.go:105-115 | On a fresh response the status is 500 and the body is exactly the message |
| `CallbackServer.WriteTokenPage` | cmd/token_user.go:127-140 | On a fresh response the status is 200 and the body is the success page, written in order: token list, optional ID-token item, closing tags |
| `CallbackServer.CallbackHandler.Handle` | cmd/token_user.go:100-147 | Refusals answer 500 with their body and leave the exchange log and the shutdown flag unchanged. A valid redirect appends exactly its code to the exchange log. When the exchange grants a token, the handler answers 200 with the success page and schedules the shutdown. When the exchange fails, the process exits with nothing written and no shutdown scheduled |

## Left out

- Server lifecycle: the `http.Server`, `ListenAndServe` and router registration are not modelled. The shutdown goroutine (sleep one second, then `Shutdown` with a five-second timeout) is reduced to the `shutdownScheduled` flag. These are concurrency and timing.
- `conf.Exchange` and the TLS-skipping HTTP client are a network call through the oauth2 library. They are modelled as the `exchange` parameter. The exit of `pkg.Must` is the outcome `ExitedOnExchangeError`, and its message formatting is not modelled.
- `sequence.RuneSequence` and the `pkg.Must` checks on it are not modelled: the generator's code is not part of this model. `state` and `nonce` are given strings, and their 24-lowercase-letter shape appears only as a precondition (`IsCorrelationToken`).
- `JoinURLStrings` and `oauth2.Config.AuthCodeURL` are not part of this model. They appear as uninterpreted function parameters, so nothing is stated about the URL they build.
- `webbrowser.Open`, all console printing, and the flag registration in `init` are not modelled. `init` sets the defaults of `--token-url` and `--auth-url` to the cluster URL, and the model takes whatever flag values arrive.
- `token.Expiry` is modelled as its printed form, an opaque string. The `id_token` extra is modelled as present or absent; the `%s` rendering of a value that is not a string is not modelled.
- Query parameters given several times: only the first value is modelled, as `url.Values.Get` returns.
- CallbackServer.CallbackHandler.Handle: requires a fresh response (no header, empty body), which net/http provides for each request. A second request after the shutdown is scheduled is not modelled beyond the same handler running again.

/** How `hydra token user` settles the OAuth2 client configuration: every
    client value given on the command line wins, and an empty one falls back
    to the configuration file. */
module ClientSetup {

  /** The command-line values; "" stands for a flag left empty. */
  datatype Flags = Flags(
    clientId: string, clientSecret: string, redirectUrl: string,
    tokenUrl: string, authUrl: string, scopes: seq<string>)

  /** The values of the configuration file the command falls back to. */
  datatype Settings = Settings(clientId: string, clientSecret: string, clusterUrl: string)

  /** The `oauth2.Config` the rest of the run uses. */
  datatype ClientConfig = ClientConfig(
    clientId: string, clientSecret: string, redirectUrl: string,
    tokenUrl: string, authUrl: string, scopes: seq<string>)

  const TokenPath := "/oauth2/token"
  const AuthPath := "/oauth2/auth"

  /** `value` is `flag` when that is non-empty, and `fallback` otherwise. */
  predicate FlagOrFallback(flag: string, fallback: string, value: string) {
    value == if flag != "" then flag else fallback
  }

  /** `conf` is what the command builds from `flags` and `settings`, where
      `join` stands for the URL-joining helper of the repository. */
  predicate ConfiguredFrom(flags: Flags, settings: Settings, join: (string, string) -> string, conf: ClientConfig) {
    && FlagOrFallback(flags.clientId, settings.clientId, conf.clientId)
    && FlagOrFallback(flags.clientSecret, settings.clientSecret, conf.clientSecret)
    && FlagOrFallback(flags.tokenUrl, join(settings.clusterUrl, TokenPath), conf.tokenUrl)
    && FlagOrFallback(flags.authUrl, join(settings.clusterUrl, AuthPath), conf.authUrl)
    && conf.redirectUrl == flags.redirectUrl
    && conf.scopes == flags.scopes
  }

  /** The defaulting steps of the command, one local at a time. */
  method Configure(flags: Flags, settings: Settings, join: (string, string) -> string) returns (conf: ClientConfig)
    ensures ConfiguredFrom(flags, settings, join, conf)
  {
    var clientId, clientSecret := flags.clientId, flags.clientSecret;
    var backend, frontend := flags.tokenUrl, flags.authUrl;
    if clientId == "" {
      clientId := settings.clientId;
    }
    if clientSecret == "" {
      clientSecret := settings.clientSecret;
    }
    if backend == "" {
      backend := join(settings.clusterUrl, TokenPath);
    }
    if frontend == "" {
      frontend := join(settings.clusterUrl, AuthPath);
    }
    conf := ClientConfig(clientId, clientSecret, flags.redirectUrl, backend, frontend, flags.scopes);
  }

  /** The flags that would ask for `conf` outright. */
  function AsFlags(conf: ClientConfig): Flags {
    Flags(conf.clientId, conf.clientSecret, conf.redirectUrl, conf.tokenUrl, conf.authUrl, conf.scopes)
  }

  /** Giving the settled configuration back as flags settles on it again:
      the defaulting is idempotent. */
  lemma ConfigureIdempotent(flags: Flags, settings: Settings, join: (string, string) -> string, conf: ClientConfig, again: ClientConfig)
    requires ConfiguredFrom(flags, settings, join, conf)
    requires ConfiguredFrom(AsFlags(conf), settings, join, again)
    ensures again == conf
  {
  }

  /** A settled value is empty only when both the flag and its fallback are:
      a client id or secret in the configuration file is never lost. */
  lemma SettledEmptyOnlyIfBothEmpty(flag: string, fallback: string, value: string)
    requires FlagOrFallback(flag, fallback, value)
    ensures value == "" <==> flag == "" && fallback == ""
  {
  }
}

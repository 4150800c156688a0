/** The configuration, with the passwords that only the saved copy holds. */
module Config {
  import opened Results

  datatype AuthMode = NoAuth | Basic | NegotiateSso

  datatype SspiPackage = NtlmPackage | NegotiatePackage

  datatype AuthConfig = AuthConfig(
    mode: AuthMode, package: SspiPackage, username: Option<string>, password: Option<string>)

  datatype ListenConfig = ListenConfig(host: string, port: nat)

  datatype RoutingMode = DirectMode | UpstreamMode | PacMode

  datatype UpstreamConfig = UpstreamConfig(host: string, port: nat, auth: AuthConfig)

  datatype PacSource = AutoSource | FileSource | UrlSource

  datatype FailPolicy = FailWithError | FailDirect

  datatype PacConfig = PacConfig(
    source: PacSource, path: Option<string>, url: Option<string>, failPolicy: FailPolicy, auth: AuthConfig)

  datatype CorpNetworkConfig = CorpNetworkConfig(enabled: bool, dnsSuffixes: seq<string>, pollSeconds: nat)

  datatype PoolConfig = PoolConfig(enabled: bool, minIdle: nat, idleTimeoutSeconds: nat)

  datatype RoutingConfig = RoutingConfig(
    mode: RoutingMode, upstream: Option<UpstreamConfig>, pac: Option<PacConfig>,
    corpNetwork: Option<CorpNetworkConfig>, pool: PoolConfig)

  datatype LoggingConfig = LoggingConfig(level: string, format: string)

  datatype Config = Config(listen: ListenConfig, routing: RoutingConfig, logging: LoggingConfig)
}

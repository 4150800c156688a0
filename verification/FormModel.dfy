/** The settings form: filling it from a redacted configuration, reading it back, and applying the
    result over the saved configuration. */
module FormModel {
  import opened Results
  import opened Text
  import opened Config

  // ---------- Secrets ----------

  function RedactedAuth(auth: AuthConfig): AuthConfig {
    auth.(password := None)
  }

  /** A copy without stored passwords, the only form that the user interface gets. */
  function Redacted(c: Config): Config {
    var upstream := match c.routing.upstream
                    case Some(u) => Some(u.(auth := RedactedAuth(u.auth)))
                    case None => None;
    var pac := match c.routing.pac
               case Some(p) => Some(p.(auth := RedactedAuth(p.auth)))
               case None => None;
    c.(routing := c.routing.(upstream := upstream, pac := pac))
  }

  /** A slot that is still Basic for the same user keeps the saved password. */
  function KeptPassword(auth: AuthConfig, saved: AuthConfig): AuthConfig {
    if auth.password.None? && auth.mode.Basic? && saved.mode.Basic? && auth.username == saved.username
    then auth.(password := saved.password)
    else auth
  }

  function KeptSecrets(c: Config, saved: Config): Config {
    var upstream := if c.routing.upstream.Some? && saved.routing.upstream.Some? then
                      var u := c.routing.upstream.value;
                      Some(u.(auth := KeptPassword(u.auth, saved.routing.upstream.value.auth)))
                    else c.routing.upstream;
    var pac := if c.routing.pac.Some? && saved.routing.pac.Some? then
                 var p := c.routing.pac.value;
                 Some(p.(auth := KeptPassword(p.auth, saved.routing.pac.value.auth)))
               else c.routing.pac;
    c.(routing := c.routing.(upstream := upstream, pac := pac))
  }

  // ---------- The form ----------

  const DEFAULT_POLL_SECONDS: nat := 30

  datatype AuthForm = AuthForm(mode: AuthMode, package: SspiPackage, username: string, password: string)

  datatype ConfigForm = ConfigForm(
    listenHost: string, listenPort: string, mode: RoutingMode,
    upstreamHost: string, upstreamPort: string, upstreamAuth: AuthForm,
    pacSource: PacSource, pacPath: string, pacUrl: string, pacFailPolicy: FailPolicy, pacAuth: AuthForm,
    corpEnabled: bool, corpSuffixes: string, corpPollSeconds: string,
    pool: PoolConfig, logLevel: string, logFormat: string)

  datatype FormError = BadListenPort | BadUpstreamPort | BadPollInterval

  function OrBlank(text: Option<string>): string {
    if text.Some? then text.value else ""
  }

  function NonBlank(text: string): Option<string> {
    var trimmed := Trim(text);
    if trimmed == "" then None else Some(trimmed)
  }

  const BLANK_AUTH: AuthConfig := AuthConfig(NoAuth, NtlmPackage, None, None)
  const BLANK_UPSTREAM: UpstreamConfig := UpstreamConfig("", 0, BLANK_AUTH)
  const BLANK_PAC: PacConfig := PacConfig(AutoSource, None, None, FailWithError, BLANK_AUTH)
  const BLANK_CORP: CorpNetworkConfig := CorpNetworkConfig(false, [], DEFAULT_POLL_SECONDS)

  function AuthFields(auth: AuthConfig): AuthForm {
    AuthForm(auth.mode, auth.package, OrBlank(auth.username), OrBlank(auth.password))
  }

  function AuthOf(form: AuthForm): AuthConfig {
    AuthConfig(form.mode, form.package, NonBlank(form.username), NonBlank(form.password))
  }

  /** A port of 0 means "not set yet" and reads better as an empty field. */
  function PortText(port: nat): string {
    if port == 0 then "" else Decimal(port)
  }

  function ParsePort(text: string): Option<nat> {
    ParseUnsigned(Trim(text), 10, MAX_U16)
  }

  function JoinSuffixes(suffixes: seq<string>): string {
    if suffixes == [] then ""
    else if |suffixes| == 1 then suffixes[0]
    else suffixes[0] + ", " + JoinSuffixes(suffixes[1..])
  }

  predicate IsSeparator(c: char) {
    c == ',' || c == LF
  }

  function SplitSuffixes(s: string): (pieces: seq<string>)
    ensures |pieces| >= 1
  {
    if s == "" then [""]
    else
      var rest := SplitSuffixes(s[1..]);
      if IsSeparator(s[0]) then [""] + rest else [[s[0]] + rest[0]] + rest[1..]
  }

  function NonBlankPieces(pieces: seq<string>): seq<string> {
    if pieces == [] then []
    else (if Trim(pieces[0]) == "" then [] else [Trim(pieces[0])]) + NonBlankPieces(pieces[1..])
  }

  function SuffixesIn(text: string): seq<string> {
    NonBlankPieces(SplitSuffixes(text))
  }

  function FromConfig(c: Config): ConfigForm {
    var upstream := if c.routing.upstream.Some? then c.routing.upstream.value else BLANK_UPSTREAM;
    var pac := if c.routing.pac.Some? then c.routing.pac.value else BLANK_PAC;
    var corp := if c.routing.corpNetwork.Some? then c.routing.corpNetwork.value else BLANK_CORP;
    ConfigForm(
      c.listen.host, Decimal(c.listen.port), c.routing.mode,
      upstream.host, PortText(upstream.port), AuthFields(upstream.auth),
      pac.source, OrBlank(pac.path), OrBlank(pac.url), pac.failPolicy, AuthFields(pac.auth),
      corp.enabled, JoinSuffixes(corp.dnsSuffixes), Decimal(corp.pollSeconds),
      c.routing.pool, c.logging.level, c.logging.format)
  }

  function UpstreamOf(f: ConfigForm): Result<UpstreamConfig, FormError> {
    match ParsePort(f.upstreamPort)
    case Some(port) => Ok(UpstreamConfig(Trim(f.upstreamHost), port, AuthOf(f.upstreamAuth)))
    case None => Err(BadUpstreamPort)
  }

  function PacOf(f: ConfigForm): PacConfig {
    PacConfig(f.pacSource, NonBlank(f.pacPath), NonBlank(f.pacUrl), f.pacFailPolicy, AuthOf(f.pacAuth))
  }

  /** None for an untouched gate. */
  function CorpOf(f: ConfigForm): Result<Option<CorpNetworkConfig>, FormError> {
    var suffixes := SuffixesIn(f.corpSuffixes);
    var poll := Trim(f.corpPollSeconds);
    if !f.corpEnabled && suffixes == [] then Ok(None)
    else if poll == "" then Ok(Some(CorpNetworkConfig(f.corpEnabled, suffixes, DEFAULT_POLL_SECONDS)))
    else
      match ParseUnsigned(poll, 10, MAX_U64)
      case Some(seconds) => Ok(Some(CorpNetworkConfig(f.corpEnabled, suffixes, seconds)))
      case None => Err(BadPollInterval)
  }

  function ToConfig(f: ConfigForm): Result<Config, FormError> {
    match ParsePort(f.listenPort)
    case None => Err(BadListenPort)
    case Some(port) =>
      var upstream := if f.mode.UpstreamMode? then
                        match UpstreamOf(f) case Ok(u) => Ok(Some(u)) case Err(e) => Err(e)
                      else Ok(None);
      var corp := if f.mode.DirectMode? then Ok(None) else CorpOf(f);
      if upstream.Err? then Err(upstream.error)
      else if corp.Err? then Err(corp.error)
      else
        Ok(Config(
             ListenConfig(Trim(f.listenHost), port),
             RoutingConfig(f.mode, upstream.value, if f.mode.PacMode? then Some(PacOf(f)) else None, corp.value, f.pool),
             LoggingConfig(Trim(f.logLevel), Trim(f.logFormat))))
  }

  // ---------- Applying ----------

  datatype ConfigError =
    | InvalidPort
    | MissingSection
    | NegotiateUnsupported
    | MissingCredentials
    | BadCorpNetwork
    | BadPool

  datatype ControlError = Invalid(error: ConfigError) | SaveFailed

  const MAX_MIN_IDLE: nat := 16

  function AuthError(auth: AuthConfig, negotiates: bool): Option<ConfigError> {
    if auth.mode.NegotiateSso? && !negotiates then Some(NegotiateUnsupported)
    else if auth.mode.Basic? && Trim(OrBlank(auth.username)) == "" then Some(MissingCredentials)
    else None
  }

  /** The first violation, in the order in which they are checked. */
  function Violation(c: Config, negotiates: bool): Option<ConfigError> {
    var r := c.routing;
    if c.listen.port == 0 then Some(InvalidPort)
    else if r.mode.UpstreamMode? && r.upstream.None? then Some(MissingSection)
    else if r.mode.PacMode? && r.pac.None? then Some(MissingSection)
    else if r.upstream.Some? && r.upstream.value.port == 0 then Some(InvalidPort)
    else if r.upstream.Some? && AuthError(r.upstream.value.auth, negotiates).Some? then
      AuthError(r.upstream.value.auth, negotiates)
    else if r.pac.Some? && AuthError(r.pac.value.auth, negotiates).Some? then AuthError(r.pac.value.auth, negotiates)
    else if r.corpNetwork.Some? && r.corpNetwork.value.enabled
         && (r.corpNetwork.value.pollSeconds == 0
             || forall s | s in r.corpNetwork.value.dnsSuffixes :: Trim(s) == "") then Some(BadCorpNetwork)
    else if r.pool.enabled
         && (r.pool.minIdle == 0 || r.pool.minIdle > MAX_MIN_IDLE || r.pool.idleTimeoutSeconds == 0) then Some(BadPool)
    else None
  }

  ghost predicate AuthIsValid(auth: AuthConfig, negotiates: bool) {
    (auth.mode.NegotiateSso? ==> negotiates)
    && (auth.mode.Basic? ==> auth.username.Some? && !AllSpace(auth.username.value))
  }

  /** What a configuration must be to be accepted. */
  ghost predicate IsValid(c: Config, negotiates: bool) {
    var r := c.routing;
    c.listen.port > 0
    && (r.mode.UpstreamMode? ==> r.upstream.Some?) && (r.mode.PacMode? ==> r.pac.Some?)
    && (r.upstream.Some? ==> r.upstream.value.port > 0 && AuthIsValid(r.upstream.value.auth, negotiates))
    && (r.pac.Some? ==> AuthIsValid(r.pac.value.auth, negotiates))
    && (r.corpNetwork.Some? && r.corpNetwork.value.enabled ==>
          r.corpNetwork.value.pollSeconds > 0
          && exists s | s in r.corpNetwork.value.dnsSuffixes :: !AllSpace(s))
    && (r.pool.enabled ==> 1 <= r.pool.minIdle <= 16 && r.pool.idleTimeoutSeconds > 0)
  }

  lemma {:induction false} BlankIsSpace(s: string)
    ensures Trim(s) == "" <==> AllSpace(s)
  {
    if AllSpace(s) {
      TrimPadded(s, "", "");
      assert s + "" + "" == s;
    } else {
      VisibleRemains(s);
    }
  }

  lemma {:induction false} VisibleRemains(s: string)
    requires !AllSpace(s)
    ensures TrimStart(s) != "" && Trim(s) != ""
  {
    if IsSpace(s[0]) {
      assert !AllSpace(s[1..]) by {
        var i :| 0 <= i < |s| && !IsSpace(s[i]);
        assert s[1..][i - 1] == s[i];
      }
      VisibleRemains(s[1..]);
    } else {
      TrimEndStops(s);
    }
  }

  lemma {:induction false} TrimEndStops(s: string)
    requires s != "" && !IsSpace(s[0])
    ensures TrimEnd(s) != ""
  {
    if IsSpace(s[|s| - 1]) {
      TrimEndStops(s[..|s| - 1]);
    }
  }

  lemma AuthErrorMeans(auth: AuthConfig, negotiates: bool)
    ensures AuthError(auth, negotiates) == None <==> AuthIsValid(auth, negotiates)
    ensures AuthError(auth, negotiates) == Some(NegotiateUnsupported) <==> auth.mode.NegotiateSso? && !negotiates
  {
    BlankIsSpace(OrBlank(auth.username));
  }

  /** A configuration is rejected if and only if it is not valid. */
  lemma RejectedIffInvalid(c: Config, negotiates: bool)
    ensures Violation(c, negotiates) == None <==> IsValid(c, negotiates)
  {
    hide Trim, AuthError, AuthIsValid, AllSpace;
    var r := c.routing;
    if r.upstream.Some? { AuthErrorMeans(r.upstream.value.auth, negotiates); }
    if r.pac.Some? { AuthErrorMeans(r.pac.value.auth, negotiates); }
    if r.corpNetwork.Some? {
      forall s | s in r.corpNetwork.value.dnsSuffixes
        ensures Trim(s) == "" <==> AllSpace(s)
      {
        BlankIsSpace(s);
      }
    }
  }

  /** Which violation is reported: the first of these that applies. */
  lemma FirstViolation(c: Config, negotiates: bool)
    ensures var r, v := c.routing, Violation(c, negotiates);
            var upstream := if r.upstream.Some? then Some(r.upstream.value.auth) else None;
            var pac := if r.pac.Some? then Some(r.pac.value.auth) else None;
            if c.listen.port == 0 then v == Some(InvalidPort)
            else if (r.mode.UpstreamMode? && r.upstream.None?) || (r.mode.PacMode? && r.pac.None?) then
              v == Some(MissingSection)
            else if r.upstream.Some? && r.upstream.value.port == 0 then v == Some(InvalidPort)
            else if upstream.Some? && !AuthIsValid(upstream.value, negotiates) then
              v == Some(if upstream.value.mode.NegotiateSso? then NegotiateUnsupported else MissingCredentials)
            else if pac.Some? && !AuthIsValid(pac.value, negotiates) then
              v == Some(if pac.value.mode.NegotiateSso? then NegotiateUnsupported else MissingCredentials)
            else v in {None, Some(BadCorpNetwork), Some(BadPool)}
                 && (v == Some(BadPool) ==> r.pool.enabled) && (v == Some(BadCorpNetwork) ==> r.corpNetwork.Some?)
                 && (v == None ==> IsValid(c, negotiates))
  {
    RejectedIffInvalid(c, negotiates);
    hide Trim, IsValid, AllSpace;
    if c.routing.upstream.Some? { AuthErrorMeans(c.routing.upstream.value.auth, negotiates); }
    if c.routing.pac.Some? { AuthErrorMeans(c.routing.pac.value.auth, negotiates); }
  }

  /** The gate is reported before the pool, and each only for itself. */
  lemma GateBeforePool(c: Config, c': Config, negotiates: bool)
    requires Violation(c, negotiates) in {Some(BadCorpNetwork), Some(BadPool)}
    requires c' == c.(routing := c.routing.(corpNetwork := None))
    ensures Violation(c, negotiates) == Some(BadPool) ==> Violation(c', negotiates) == Some(BadPool)
    ensures Violation(c, negotiates) == Some(BadCorpNetwork) ==> Violation(c', negotiates) in {None, Some(BadPool)}
  {
    hide Trim;
  }

  class Control {
    var config: Config
    /** The configurations handed to the apply hook, in order. */
    var hooked: seq<Config>

    constructor (config: Config)
      ensures this.config == config && hooked == []
    {
      this.config, hooked := config, [];
    }

    /** No slot shows a password, and nothing else is withheld. */
    method ConfigRedacted() returns (c: Config)
      ensures c == Redacted(config)
      ensures ShowsNoPassword(c) && DiffersInPasswords(c, config)
    {
      c := Redacted(config);
    }

    /** Nothing changes unless the edited configuration is valid and is saved. */
    method Apply(edited: Config, negotiates: bool, saves: bool) returns (r: Result<(), ControlError>)
      modifies this
      ensures var merged := KeptSecrets(edited, old(config));
              match Violation(merged, negotiates)
              case Some(error) => r == Err(Invalid(error)) && config == old(config) && hooked == old(hooked)
              case None =>
                if saves then r == Ok(()) && config == merged && hooked == old(hooked) + [merged]
                else r == Err(SaveFailed) && config == old(config) && hooked == old(hooked)
    {
      var merged := KeptSecrets(edited, config);
      var violation := Violation(merged, negotiates);
      if violation.Some? {
        return Err(Invalid(violation.value));
      }
      if !saves {
        return Err(SaveFailed);
      }
      hooked := hooked + [merged];
      config := merged;
      r := Ok(());
    }
  }

  // ---------- What a form is refused for ----------

  /** A port is read from between white space, if it fits. */
  lemma PortIsRead(before: string, n: nat, after: string)
    requires AllSpace(before) && AllSpace(after)
    ensures ParsePort(before + Decimal(n) + after) == if n <= 65535 then Some(n) else None
  {
    DecimalHasNoSpace(n);
    TrimPadded(before, Decimal(n), after);
    ParseDecimal(n, MAX_U16);
  }

  /** The gate's section is wanted if it is on or has suffixes, and the mode shows it. */
  predicate WantsGate(f: ConfigForm) {
    !f.mode.DirectMode? && (f.corpEnabled || SuffixesIn(f.corpSuffixes) != [])
  }

  /** The first unreadable number that the mode uses is reported: the listen port, then the upstream's,
      then the interval, which may be blank. */
  lemma FormErrorIs(f: ConfigForm)
    ensures var poll := Trim(f.corpPollSeconds);
            var badPoll := WantsGate(f) && poll != "" && ParseUnsigned(poll, 10, MAX_U64).None?;
            var badUpstream := f.mode.UpstreamMode? && ParsePort(f.upstreamPort).None?;
            if ParsePort(f.listenPort).None? then ToConfig(f) == Err(BadListenPort)
            else if badUpstream then ToConfig(f) == Err(BadUpstreamPort)
            else if badPoll then ToConfig(f) == Err(BadPollInterval)
            else ToConfig(f).Ok?
  {
    hide ParseUnsigned, Trim, ParsePort, SuffixesIn, NonBlank;
  }

  /** A gate whose interval is left blank is checked every half minute. */
  lemma BlankIntervalMeansThirty(f: ConfigForm)
    requires WantsGate(f) && AllSpace(f.corpPollSeconds) && ToConfig(f).Ok?
    ensures ToConfig(f).value.routing.corpNetwork
         == Some(CorpNetworkConfig(f.corpEnabled, SuffixesIn(f.corpSuffixes), 30))
  {
    BlankIsSpace(f.corpPollSeconds);
    hide ParseUnsigned, Trim, ParsePort, SuffixesIn, NonBlank;
  }

  /** A password that is typed is the one that is stored, whatever was saved. */
  lemma TypedPasswordIsStored(form: AuthForm, saved: AuthConfig, typed: string)
    requires typed != "" && Trimmed(typed) && form.password == typed
    ensures KeptPassword(AuthOf(form), saved).password == Some(typed)
  {
    TrimTrimmed(typed);
  }

  /** A section that was never configured is shown blank: it cannot become an upstream until a port is
      given, and becomes an automatic PAC without authentication. */
  lemma SwitchingModes(c: Config)
    requires Typed(c)
    ensures var f := FromConfig(Redacted(c));
            (c.routing.upstream.None? ==> ToConfig(f.(mode := UpstreamMode)) == Err(BadUpstreamPort))
            && (c.routing.pac.None? && ToConfig(f.(mode := PacMode)).Ok? ==>
                  ToConfig(f.(mode := PacMode)).value.routing.pac
                  == Some(PacConfig(AutoSource, None, None, FailWithError, AuthConfig(NoAuth, NtlmPackage, None, None))))
  {
    NumberRoundTrip(c.listen.port);
    EmptyPortIsRejected();
    TrimIsTrimmed("");
    hide Trim, Decimal, ParseUnsigned, ParsePort, PortText, CorpOf, JoinSuffixes;
  }

  // ---------- Saving an unedited form ----------

  predicate NormalText(text: Option<string>) {
    text.Some? ==> text.value != "" && Trimmed(text.value)
  }

  /** A password only where Basic can keep it. */
  predicate NormalAuth(auth: AuthConfig) {
    NormalText(auth.username) && (!auth.mode.Basic? ==> auth.password == None)
  }

  predicate NormalSuffix(s: string) {
    s != "" && Trimmed(s) && ',' !in s && LF !in s
  }

  predicate NormalCorp(corp: CorpNetworkConfig) {
    (corp.enabled || corp.dnsSuffixes != [])
    && forall i | 0 <= i < |corp.dnsSuffixes| :: NormalSuffix(corp.dnsSuffixes[i])
  }

  /** Only the sections that the mode shows, with trimmed fields and a usable upstream port. */
  predicate FormNormal(c: Config) {
    var r := c.routing;
    Trimmed(c.listen.host) && Trimmed(c.logging.level) && Trimmed(c.logging.format)
    && (if r.mode.UpstreamMode?
        then r.upstream.Some? && Trimmed(r.upstream.value.host) && r.upstream.value.port != 0
             && NormalAuth(r.upstream.value.auth)
        else r.upstream == None)
    && (if r.mode.PacMode?
        then r.pac.Some? && NormalText(r.pac.value.path) && NormalText(r.pac.value.url)
             && NormalAuth(r.pac.value.auth)
        else r.pac == None)
    && (r.corpNetwork.Some? ==> !r.mode.DirectMode? && NormalCorp(r.corpNetwork.value))
  }

  /** The widths of the numeric fields. */
  predicate Typed(c: Config) {
    c.listen.port <= 65535
    && (c.routing.upstream.Some? ==> c.routing.upstream.value.port <= 65535)
    && (c.routing.corpNetwork.Some? ==> c.routing.corpNetwork.value.pollSeconds <= 18446744073709551615)
  }

  /** What `apply` would store after a form filled from the redacted copy is read back unedited. */
  function SavedUnedited(c: Config): Result<Config, FormError> {
    match ToConfig(FromConfig(Redacted(c)))
    case Ok(edited) => Ok(KeptSecrets(edited, c))
    case Err(e) => Err(e)
  }

  lemma TrimIsTrimmed(s: string)
    ensures Trimmed(Trim(s)) && (Trim(s) == s <==> Trimmed(s))
    ensures NonBlank(s) == Some(s) <==> s != "" && Trimmed(s)
    ensures Trim("") == ""
  {
    TrimStartIsTrimmed(s);
    TrimEndIsTrimmed(TrimStart(s));
    if Trimmed(s) {
      TrimTrimmed(s);
    }
    TrimTrimmed("");
  }

  lemma TextRoundTrip(text: Option<string>)
    ensures NonBlank(OrBlank(text)) == text <==> NormalText(text)
  {
    TrimIsTrimmed(OrBlank(text));
  }

  lemma AuthRoundTrip(auth: AuthConfig)
    ensures KeptPassword(AuthOf(AuthFields(RedactedAuth(auth))), auth) == auth <==> NormalAuth(auth)
  {
    TextRoundTrip(auth.username);
    TrimIsTrimmed("");
  }

  lemma NumberRoundTrip(n: nat)
    ensures n <= MAX_U16 ==> ParsePort(Decimal(n)) == Some(n) && (ParsePort(PortText(n)) == Some(n) <==> n != 0)
    ensures n <= MAX_U64 ==> ParseUnsigned(Trim(Decimal(n)), 10, MAX_U64) == Some(n)
    ensures Trim(Decimal(n)) != ""
  {
    DecimalHasNoSpace(n);
    TrimTrimmed(Decimal(n));
    TrimIsTrimmed("");
    if n <= MAX_U16 {
      ParseDecimal(n, MAX_U16);
    }
    if n <= MAX_U64 {
      ParseDecimal(n, MAX_U64);
    }
  }

  // ---------- The list of suffixes ----------

  predicate NoSeparator(s: string) {
    forall i | 0 <= i < |s| :: !IsSeparator(s[i])
  }

  lemma {:induction false} SplitSuffixesAt(a: string, b: string)
    requires NoSeparator(a)
    ensures SplitSuffixes(a + "," + b) == [a] + SplitSuffixes(b)
  {
    var s := a + "," + b;
    if a == "" {
      assert s[1..] == b;
    } else {
      assert s[0] == a[0] && s[1..] == a[1..] + "," + b;
      SplitSuffixesAt(a[1..], b);
      assert [a[0]] + a[1..] == a;
    }
  }

  lemma {:induction false} SplitSuffixesLast(a: string)
    requires NoSeparator(a)
    ensures SplitSuffixes(a) == [a]
  {
    if a != "" {
      SplitSuffixesLast(a[1..]);
      assert [a[0]] + a[1..] == a;
    }
  }

  lemma LeadingSpaceIsDropped(text: string)
    ensures SuffixesIn(" " + text) == SuffixesIn(text)
  {
    var pieces := SplitSuffixes(text);
    assert (" " + text)[1..] == text;
    var padded := [" " + pieces[0]] + pieces[1..];
    assert SplitSuffixes(" " + text) == padded;
    assert padded[1..] == pieces[1..];
    assert (" " + pieces[0])[1..] == pieces[0];
  }

  lemma {:induction false} NormalSuffixesSurvive(suffixes: seq<string>)
    requires forall i | 0 <= i < |suffixes| :: NormalSuffix(suffixes[i])
    ensures SuffixesIn(JoinSuffixes(suffixes)) == suffixes
  {
    if suffixes == [] {
      TrimIsTrimmed("");
      assert SplitSuffixes("")[1..] == [];
    } else {
      var first := suffixes[0];
      assert NormalSuffix(first);
      TrimIsTrimmed(first);
      if |suffixes| == 1 {
        SplitSuffixesLast(first);
        assert [first][1..] == [] && suffixes == [first];
        assert NonBlankPieces([first]) == [first] + NonBlankPieces([]);
      } else {
        var rest := JoinSuffixes(suffixes[1..]);
        NormalSuffixesSurvive(suffixes[1..]);
        assert JoinSuffixes(suffixes) == first + "," + (" " + rest);
        SplitSuffixesAt(first, " " + rest);
        LeadingSpaceIsDropped(rest);
        assert ([first] + SplitSuffixes(" " + rest))[1..] == SplitSuffixes(" " + rest);
        assert suffixes == [first] + suffixes[1..];
      }
    }
  }

  lemma TrimKeepsNoSeparator(s: string)
    requires NoSeparator(s)
    ensures NoSeparator(Trim(s))
  {
    TrimStartKeepsNoSeparator(s);
    TrimEndIsTrimmed(TrimStart(s));
  }

  lemma {:induction false} TrimStartKeepsNoSeparator(s: string)
    requires NoSeparator(s)
    ensures NoSeparator(TrimStart(s))
  {
    if s != "" && IsSpace(s[0]) {
      TrimStartKeepsNoSeparator(s[1..]);
    }
  }

  lemma {:induction false} PiecesHaveNoSeparator(text: string)
    ensures forall i | 0 <= i < |SplitSuffixes(text)| :: NoSeparator(SplitSuffixes(text)[i])
  {
    if text != "" {
      PiecesHaveNoSeparator(text[1..]);
    }
  }

  lemma SeparatorFree(s: string)
    requires NoSeparator(s)
    ensures ',' !in s && LF !in s
  {
    assert forall i | 0 <= i < |s| :: !IsSeparator(s[i]);
  }

  lemma {:induction false} NonBlankPiecesAreNormal(pieces: seq<string>)
    requires forall i | 0 <= i < |pieces| :: NoSeparator(pieces[i])
    ensures forall i | 0 <= i < |NonBlankPieces(pieces)| :: NormalSuffix(NonBlankPieces(pieces)[i])
  {
    if pieces != [] {
      NonBlankPiecesAreNormal(pieces[1..]);
      TrimIsTrimmed(pieces[0]);
      TrimKeepsNoSeparator(pieces[0]);
      SeparatorFree(Trim(pieces[0]));
    }
  }

  /** A list of suffixes survives the text field exactly when each is trimmed, not blank and free of
      commas and line ends. */
  lemma SuffixesRoundTrip(suffixes: seq<string>)
    ensures SuffixesIn(JoinSuffixes(suffixes)) == suffixes
            <==> forall i | 0 <= i < |suffixes| :: NormalSuffix(suffixes[i])
  {
    var text := JoinSuffixes(suffixes);
    if forall i | 0 <= i < |suffixes| :: NormalSuffix(suffixes[i]) {
      NormalSuffixesSurvive(suffixes);
    }
    PiecesHaveNoSeparator(text);
    NonBlankPiecesAreNormal(SplitSuffixes(text));
  }

  // ---------- The sections ----------

  lemma CorpRoundTrip(c: Config)
    requires Typed(c)
    ensures CorpOf(FromConfig(c)) == Ok(c.routing.corpNetwork)
            <==> (c.routing.corpNetwork.Some? ==> NormalCorp(c.routing.corpNetwork.value))
  {
    hide SuffixesIn, JoinSuffixes, ParseUnsigned, Trim, Decimal;
    var corp := if c.routing.corpNetwork.Some? then c.routing.corpNetwork.value else BLANK_CORP;
    SuffixesRoundTrip(corp.dnsSuffixes);
    NumberRoundTrip(corp.pollSeconds);
  }

  lemma UpstreamRoundTrip(c: Config)
    requires Typed(c) && c.routing.upstream.Some?
    ensures var u := c.routing.upstream.value;
            var read := UpstreamOf(FromConfig(Redacted(c)));
            (read.Ok? && read.value.(auth := KeptPassword(read.value.auth, u.auth)) == u)
            <==> (Trimmed(u.host) && u.port != 0 && NormalAuth(u.auth))
  {
    hide ParseUnsigned, Trim, Decimal, ParsePort, PortText, NormalAuth, JoinSuffixes;
    var u := c.routing.upstream.value;
    NumberRoundTrip(u.port);
    TrimIsTrimmed(u.host);
    AuthRoundTrip(u.auth);
    if u.port == 0 {
      EmptyPortIsRejected();
    }
  }

  lemma EmptyPortIsRejected()
    ensures ParsePort(PortText(0)) == None
  {
    TrimIsTrimmed("");
  }

  lemma PacRoundTrip(c: Config)
    requires c.routing.pac.Some?
    ensures var p := c.routing.pac.value;
            var read := PacOf(FromConfig(Redacted(c)));
            read.(auth := KeptPassword(read.auth, p.auth)) == p
            <==> (NormalText(p.path) && NormalText(p.url) && NormalAuth(p.auth))
  {
    hide Trim, Decimal, PortText, JoinSuffixes, NonBlank, NormalText, NormalAuth;
    var p := c.routing.pac.value;
    TextRoundTrip(p.path);
    TextRoundTrip(p.url);
    AuthRoundTrip(p.auth);
  }

  lemma RedactionKeepsTheRest(c: Config)
    ensures Redacted(c).routing.corpNetwork == c.routing.corpNetwork
    ensures CorpOf(FromConfig(Redacted(c))) == CorpOf(FromConfig(c))
    ensures Typed(c) ==> Typed(Redacted(c))
  {
  }

  /** The form is read back and merged section by section. */
  lemma SavedBySections(c: Config)
    requires ParsePort(Decimal(c.listen.port)) == Some(c.listen.port)
    ensures var r, f := c.routing, FromConfig(Redacted(c));
            var upstream, corp := UpstreamOf(f), CorpOf(f);
            SavedUnedited(c) == Ok(c) <==>
              Trim(c.listen.host) == c.listen.host
              && Trim(c.logging.level) == c.logging.level && Trim(c.logging.format) == c.logging.format
              && (if r.mode.UpstreamMode?
                  then upstream.Ok? && r.upstream.Some?
                       && upstream.value.(auth := KeptPassword(upstream.value.auth, r.upstream.value.auth)) == r.upstream.value
                  else r.upstream == None)
              && (if r.mode.PacMode?
                  then r.pac.Some? && PacOf(f).(auth := KeptPassword(PacOf(f).auth, r.pac.value.auth)) == r.pac.value
                  else r.pac == None)
              && if r.mode.DirectMode? then r.corpNetwork == None else corp == Ok(r.corpNetwork)
  {
    hide Trim, Decimal, PortText, JoinSuffixes, ParsePort, CorpOf, UpstreamOf, PacOf, KeptPassword, AuthFields;
  }

  /** Filling the form from the redacted copy of a configuration, reading it back unedited and applying
      it over the saved configuration stores exactly the original, passwords included, if and only
      if the configuration has the shape that the form can show. */
  lemma UneditedSaveIsIdentity(c: Config)
    requires Typed(c)
    ensures SavedUnedited(c) == Ok(c) <==> FormNormal(c)
  {
    hide Trim, Decimal, NormalText, NormalAuth, NormalCorp, ParsePort, CorpOf, UpstreamOf, PacOf,
      FromConfig, Redacted, KeptPassword, SavedUnedited, Trimmed;
    NumberRoundTrip(c.listen.port);
    SavedBySections(c);
    TrimIsTrimmed(c.listen.host);
    TrimIsTrimmed(c.logging.level);
    TrimIsTrimmed(c.logging.format);
    RedactionKeepsTheRest(c);
    CorpRoundTrip(c);
    if c.routing.upstream.Some? {
      UpstreamRoundTrip(c);
    }
    if c.routing.pac.Some? {
      PacRoundTrip(c);
    }
  }

  /** The whole save through the control handle: whenever the stored configuration is in form-normal
      shape, valid and saved, it is unchanged by saving an unedited form. */
  method SaveUnedited(control: Control, negotiates: bool, saves: bool) returns (r: Result<(), ControlError>)
    requires Typed(control.config) && FormNormal(control.config)
    modifies control
    ensures control.config == old(control.config)
    ensures r.Ok? <==> Violation(old(control.config), negotiates).None? && saves
  {
    hide ToConfig, FromConfig, FormNormal, Violation, Redacted;
    UneditedSaveIsIdentity(control.config);
    var shown := control.ConfigRedacted();
    var edited := ToConfig(FromConfig(shown));
    r := control.Apply(edited.value, negotiates, saves);
  }

  /** A merged slot's password is the edited one, or the saved one of the same Basic user where none
      was typed; the slots of the upstream and of the PAC proxies never mix. */
  lemma PasswordsStayBehind(saved: Config, edited: Config)
    ensures ShowsNoPassword(Redacted(saved)) && DiffersInPasswords(Redacted(saved), saved)
    ensures var merged := KeptSecrets(edited, saved);
            DiffersInPasswords(merged, edited)
            && (merged.routing.upstream.Some? ==>
                  MayKeep(merged.routing.upstream.value.auth, edited.routing.upstream.value.auth,
                          if saved.routing.upstream.Some? then Some(saved.routing.upstream.value.auth) else None))
            && (merged.routing.pac.Some? ==>
                  MayKeep(merged.routing.pac.value.auth, edited.routing.pac.value.auth,
                          if saved.routing.pac.Some? then Some(saved.routing.pac.value.auth) else None))
  {
    hide KeptPassword;
    if edited.routing.upstream.Some? && saved.routing.upstream.Some? {
      KeptIsAllowed(edited.routing.upstream.value.auth, saved.routing.upstream.value.auth);
    }
    if edited.routing.pac.Some? && saved.routing.pac.Some? {
      KeptIsAllowed(edited.routing.pac.value.auth, saved.routing.pac.value.auth);
    }
  }

  lemma KeptIsAllowed(edited: AuthConfig, saved: AuthConfig)
    ensures MayKeep(KeptPassword(edited, saved), edited, Some(saved))
    ensures KeptPassword(edited, saved).(password := edited.password) == edited
  {
  }

  /** A typed password always wins; without one, exactly the same Basic user keeps the saved one. */
  predicate MayKeep(merged: AuthConfig, edited: AuthConfig, saved: Option<AuthConfig>) {
    merged.password ==
      if edited.password.Some? then edited.password
      else if saved.Some? && edited.mode.Basic? && saved.value.mode.Basic? && edited.username == saved.value.username
      then saved.value.password
      else None
  }

  predicate ShowsNoPassword(c: Config) {
    (c.routing.upstream.Some? ==> c.routing.upstream.value.auth.password == None)
    && (c.routing.pac.Some? ==> c.routing.pac.value.auth.password == None)
  }

  /** The two agree in everything but the passwords of the two slots. */
  predicate DiffersInPasswords(a: Config, b: Config) {
    a.listen == b.listen && a.logging == b.logging
    && a.routing.(upstream := b.routing.upstream, pac := b.routing.pac) == b.routing
    && (a.routing.upstream.Some? <==> b.routing.upstream.Some?)
    && (a.routing.upstream.Some? ==>
          var u, w := a.routing.upstream.value, b.routing.upstream.value;
          u.(auth := u.auth.(password := w.auth.password)) == w)
    && (a.routing.pac.Some? <==> b.routing.pac.Some?)
    && (a.routing.pac.Some? ==>
          var u, w := a.routing.pac.value, b.routing.pac.value;
          u.(auth := u.auth.(password := w.auth.password)) == w)
  }
}

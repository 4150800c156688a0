/** The per-connection authentication driver: it picks the scheme out of a 407's headers and
    produces the `Proxy-Authorization` value of each leg. */
module UpstreamAuth {
  import opened Results
  import opened Text
  import opened AuthHeader
  import opened Handshake

  /** Header fields as the wire reader yields them: lower-cased names, trimmed values. */
  type Headers = seq<(string, string)>

  const PROXY_AUTHENTICATE: string := "proxy-authenticate"

  // ---------- Challenges ----------

  predicate IsTchar(c: char) {
    'a' <= c <= 'z' || 'A' <= c <= 'Z' || '0' <= c <= '9'
    || c == '!' || '#' <= c <= '\'' || c == '*' || c == '+' || c == '-' || c == '.'
    || '^' <= c <= '`' || c == '|' || c == '~'
  }

  predicate IsToken(s: string) {
    s != "" && forall i | 0 <= i < |s| :: IsTchar(s[i])
  }

  /** The characters of a token: letters, digits and these marks (section 5.6.2 of RFC 9110). */
  lemma TokenCharactersAre(c: char, marks: string)
    requires marks == "!#$%&'*+-.^_`|~"
    ensures IsTchar(c) <==> c in marks || 'A' <= c <= 'Z' || 'a' <= c <= 'z' || '0' <= c <= '9'
  {
    assert forall i | 0 <= i < |marks| :: IsTchar(marks[i]);
    if IsTchar(c) && !('A' <= c <= 'Z' || 'a' <= c <= 'z' || '0' <= c <= '9') {
      MarksAre(c, marks);
    }
  }

  /** A mark in the table. */
  lemma MarksAre(c: char, marks: string)
    requires marks == "!#$%&'*+-.^_`|~"
    requires c == '!' || '#' <= c <= '\'' || c == '*' || c == '+' || c == '-' || c == '.'
             || '^' <= c <= '`' || c == '|' || c == '~'
    ensures c in marks
  {
    assert marks[0] == '!' && marks[1] == '#' && marks[2] == '$' && marks[3] == '%' && marks[4] == '&';
    assert marks[5] == '\'' && marks[6] == '*' && marks[7] == '+' && marks[8] == '-' && marks[9] == '.';
    assert marks[10] == '^' && marks[11] == '_' && marks[12] == '`' && marks[13] == '|' && marks[14] == '~';
  }

  /** The field that is read, as it is usually spelled. */
  lemma FieldIsProxyAuthenticate()
    ensures ToLower("Proxy-Authenticate") == PROXY_AUTHENTICATE
  {
    hide ToLower;
    LowerIs("Proxy-Authenticate", "proxy-authenticate");
  }

  function SchemeName(challenge: string): string {
    FirstWord(challenge)
  }

  /** The trimmed pieces that start a challenge: their first word is a bare token. */
  function StartingPieces(pieces: seq<string>): seq<string>
    decreases |pieces|
  {
    if pieces == [] then [] else StartingPiece(Trim(pieces[0])) + StartingPieces(pieces[1..])
  }

  function StartingPiece(piece: string): seq<string> {
    if IsToken(SchemeName(piece)) then [piece] else []
  }

  /** Every challenge of the `Proxy-Authenticate` fields, in order. */
  function Challenges(headers: Headers): seq<string> {
    if headers == [] then []
    else
      (if headers[0].0 == PROXY_AUTHENTICATE then StartingPieces(Split(headers[0].1, ',')) else [])
      + Challenges(headers[1..])
  }

  function FirstOffer(challenges: seq<string>): NegotiateOffer {
    if challenges == [] then NotOffered
    else
      var offer := ParseProxyAuthenticate(challenges[0]);
      if offer.NotOffered? then FirstOffer(challenges[1..]) else offer
  }

  function OfferIn(headers: Headers): NegotiateOffer {
    FirstOffer(Challenges(headers))
  }

  // ---------- The driver's state and its answers ----------

  datatype AuthFailure =
    | NotConfigured
    | BasicRejected
    | NoUsableScheme(offered: seq<string>)
    | HandshakeFailed(error: AuthError)
    | CompletedEarly

  datatype AuthMode = NoAuth | BasicAuth(credentials: string) | NegotiateAuth(auth: Authenticator)

  datatype AuthValue =
    | NoneState
    | BasicState(credentials: string, sent: bool)
    | NegotiateState(handshake: HandshakeState, scheme: Option<AuthScheme>)

  function NewState(mode: AuthMode): AuthValue {
    match mode
    case NoAuth => NoneState
    case BasicAuth(credentials) => BasicState(credentials, false)
    case NegotiateAuth(auth) => NegotiateState(Fresh(auth, DEFAULT_MAX_LEGS), None)
  }

  function Opened(v: AuthValue): (AuthValue, Option<string>) {
    if v.BasicState? then (v.(sent := true), Some(v.credentials)) else (v, None)
  }

  function SchemeNames(challenges: seq<string>): seq<string> {
    seq(|challenges|, i requires 0 <= i < |challenges| => SchemeName(challenges[i]))
  }

  function FirstLegScheme(headers: Headers): Result<AuthScheme, AuthFailure> {
    match OfferIn(headers).Scheme()
    case Some(advertised) => Ok(advertised)
    case None =>
      var offered := Challenges(headers);
      if offered == [] then Ok(Negotiate) else Err(NoUsableScheme(SchemeNames(offered)))
  }

  function NegotiateAnswered(h: HandshakeState, scheme: Option<AuthScheme>, headers: Headers)
    : (AuthValue, Result<string, AuthFailure>)
  {
    var chosen := if scheme.Some? then Ok(scheme.value) else FirstLegScheme(headers);
    match chosen
    case Err(e) => (NegotiateState(h, scheme), Err(e))
    case Ok(keyword) => LegAnswered(h, keyword, OfferIn(headers).ChallengeToken())
  }

  function LegAnswered(h: HandshakeState, keyword: AuthScheme, challenge: Option<Token>)
    : (AuthValue, Result<string, AuthFailure>)
  {
    var (h', step) := Responded(h, ProxyAuthRequired(challenge));
    var v := NegotiateState(h', Some(keyword));
    match step
    case Err(e) => (v, Err(HandshakeFailed(e)))
    case Ok(Complete) => (v, Err(CompletedEarly))
    case Ok(SendToken(token)) => (v, Ok(BuildProxyAuthorization(keyword, token)))
  }

  /** The answer to one 407, and the state it leaves. */
  function Answered(v: AuthValue, headers: Headers): (AuthValue, Result<string, AuthFailure>) {
    match v
    case NoneState => (v, Err(NotConfigured))
    case BasicState(credentials, sent) =>
      if sent then (v, Err(BasicRejected)) else (v.(sent := true), Ok(credentials))
    case NegotiateState(h, scheme) => NegotiateAnswered(h, scheme, headers)
  }

  class AuthState {
    const mode: AuthMode
    const handshake: NegotiateHandshake?
    var sent: bool
    var scheme: Option<AuthScheme>

    ghost predicate Valid()
      reads this
    {
      mode.NegotiateAuth? <==> handshake != null
    }

    ghost function Value(): AuthValue
      requires Valid()
      reads this, handshake
    {
      match mode
      case NoAuth => NoneState
      case BasicAuth(credentials) => BasicState(credentials, sent)
      case NegotiateAuth(_) => NegotiateState(handshake.State(), scheme)
    }

    constructor (mode: AuthMode)
      ensures Valid() && Value() == NewState(mode)
      ensures handshake != null ==> fresh(handshake)
    {
      var machine: NegotiateHandshake? := null;
      if mode.NegotiateAuth? {
        machine := new NegotiateHandshake(mode.auth);
      }
      this.mode, this.handshake := mode, machine;
      sent, scheme := false, None;
    }

    /** Only Basic opens with a credential. */
    method InitialHeader() returns (header: Option<string>)
      requires Valid()
      modifies this
      ensures Valid() && (Value(), header) == Opened(old(Value()))
    {
      match mode {
        case BasicAuth(credentials) =>
          sent := true;
          header := Some(credentials);
        case _ =>
          header := None;
      }
    }

    method OnChallenge(headers: Headers) returns (r: Result<string, AuthFailure>)
      requires Valid()
      modifies this, handshake
      ensures Valid() && (Value(), r) == Answered(old(Value()), headers)
    {
      match mode {
        case NoAuth =>
          r := Err(NotConfigured);
        case BasicAuth(credentials) =>
          if sent {
            return Err(BasicRejected);
          }
          sent := true;
          r := Ok(credentials);
        case NegotiateAuth(_) =>
          r := NegotiateLeg(headers);
      }
    }

    method NegotiateLeg(headers: Headers) returns (r: Result<string, AuthFailure>)
      requires Valid() && handshake != null
      modifies this, handshake
      ensures Valid()
      ensures (Value(), r) == NegotiateAnswered(old(handshake.State()), old(scheme), headers)
    {
      var offer := OfferIn(headers);
      var keyword;
      match scheme {
        case Some(learned) =>
          keyword := learned;
        case None =>
          match FirstLegScheme(headers) {
            case Ok(advertised) =>
              keyword := advertised;
            case Err(e) =>
              return Err(e);
          }
      }
      scheme := Some(keyword);
      var step := handshake.OnResponse(ProxyAuthRequired(offer.ChallengeToken()));
      match step {
        case Err(e) =>
          r := Err(HandshakeFailed(e));
        case Ok(Complete) =>
          r := Err(CompletedEarly);
        case Ok(SendToken(token)) =>
          r := Ok(BuildProxyAuthorization(keyword, token));
      }
    }
  }

  // ---------- Runs of 407s on one connection ----------

  /** The answers to a run of 407s, if every one of them is answered. */
  function Answers(v: AuthValue, run: seq<Headers>): (r: Option<seq<string>>)
    ensures r.Some? ==> |r.value| == |run|
    decreases |run|
  {
    if run == [] then Some([])
    else
      var (v', answer) := Answered(v, run[0]);
      if answer.Err? then None
      else
        match Answers(v', run[1..])
        case None => None
        case Some(rest) => Some([answer.value] + rest)
  }

  /** The state after answering a run. */
  function After(v: AuthValue, run: seq<Headers>): AuthValue
    decreases |run|
  {
    if run == [] then v else After(Answered(v, run[0]).0, run[1..])
  }

  /** A longer run is answered if and only if the shorter one and then the last 407 are. */
  lemma {:induction false} AnswersOneMore(v: AuthValue, run: seq<Headers>, headers: Headers)
    requires Answers(v, run).Some?
    ensures var (v', answer) := Answered(After(v, run), headers);
            After(v, run + [headers]) == v'
            && Answers(v, run + [headers])
               == if answer.Ok? then Some(Answers(v, run).value + [answer.value]) else None
    decreases |run|
  {
    hide Answered;
    var longer := run + [headers];
    if run == [] {
      assert longer[1..] == [] && longer[0] == headers;
      var (v', answer) := Answered(v, headers);
      assert Answers(v', longer[1..]) == Some([]);
      if answer.Ok? {
        assert [] + [answer.value] == [answer.value] + [];
      }
    } else {
      AnswersOneMore(Answered(v, run[0]).0, run[1..], headers);
      assert longer[0] == run[0] && longer[1..] == run[1..] + [headers];
      var first, later := [Answered(v, run[0]).1.value], Answers(Answered(v, run[0]).0, run[1..]).value;
      var (v', answer) := Answered(After(v, run), headers);
      if answer.Ok? {
        assert first + (later + [answer.value]) == first + later + [answer.value];
      }
    }
  }

  /** The challenge tokens that a run of 407s carries, one for each. */
  function Fed(run: seq<Headers>): (fed: seq<Option<Token>>)
    ensures |fed| == |run|
  {
    if run == [] then [] else [OfferIn(run[0]).ChallengeToken()] + Fed(run[1..])
  }

  /** The answers under a fixed keyword, in terms of the challenge tokens alone. */
  function LegAnswers(h: HandshakeState, keyword: AuthScheme, challenges: seq<Option<Token>>)
    : (r: Option<seq<string>>)
    ensures r.Some? ==> |r.value| == |challenges|
    decreases |challenges|
  {
    if challenges == [] then Some([])
    else
      var (v', answer) := LegAnswered(h, keyword, challenges[0]);
      if answer.Err? then None
      else
        match LegAnswers(v'.handshake, keyword, challenges[1..])
        case None => None
        case Some(rest) => Some([answer.value] + rest)
  }

  /** Only the first 407 chooses the keyword; after that the tokens alone decide. */
  lemma {:induction false} KeywordIsKept(
    h: HandshakeState, scheme: Option<AuthScheme>, keyword: AuthScheme, run: seq<Headers>)
    requires scheme == Some(keyword) || (scheme == None && (run != [] ==> FirstLegScheme(run[0]) == Ok(keyword)))
    ensures Answers(NegotiateState(h, scheme), run) == LegAnswers(h, keyword, Fed(run))
    decreases |run|
  {
    if run != [] {
      assert Fed(run)[1..] == Fed(run[1..]);
      FirstLegAnswered(h, scheme, keyword, run[0]);
      var (v', answer) := LegAnswered(h, keyword, Fed(run)[0]);
      KeywordIsKept(v'.handshake, Some(keyword), keyword, run[1..]);
    }
  }

  lemma FirstLegAnswered(h: HandshakeState, scheme: Option<AuthScheme>, keyword: AuthScheme, headers: Headers)
    requires scheme == Some(keyword) || (scheme == None && FirstLegScheme(headers) == Ok(keyword))
    ensures Answered(NegotiateState(h, scheme), headers)
         == LegAnswered(h, keyword, OfferIn(headers).ChallengeToken())
  {
  }

  /** A machine that has answered 407s that carried `fed`. */
  function Midway(auth: Authenticator, fed: seq<Option<Token>>): HandshakeState {
    HandshakeState(auth, fed, |fed|, DEFAULT_MAX_LEGS, fed != [], false)
  }

  /** What it takes for a whole run of 407s to be answered under one keyword: at most ten of them,
      a challenge in each after the first, and an authenticator that yields a token for each. */
  ghost predicate Answerable(auth: Authenticator, fed: seq<Option<Token>>, from: nat)
    requires from <= |fed|
  {
    (from < |fed| ==> |fed| <= 10)
    && forall k: nat | from <= k < |fed| :: StepSucceeds(auth, fed, k)
  }

  /** Step k of the authenticator gets a challenge, unless it is the first, and yields a token. */
  ghost predicate StepSucceeds(auth: Authenticator, fed: seq<Option<Token>>, k: nat)
    requires k < |fed|
  {
    (k > 0 ==> fed[k].Some?) && auth(fed[..k + 1]).Ok?
  }

  /** The k-th value carries the keyword and the token of the authenticator's k-th step. */
  ghost predicate AreTokens(
    answers: seq<string>, auth: Authenticator, keyword: AuthScheme, fed: seq<Option<Token>>, from: nat)
  {
    from + |answers| == |fed|
    && forall i: nat | i < |answers| :: CarriesToken(answers[i], auth, keyword, fed[..from + i + 1])
  }

  /** `answer` is the token that the authenticator yields after `fed`, under `keyword`. */
  ghost predicate CarriesToken(answer: string, auth: Authenticator, keyword: AuthScheme, fed: seq<Option<Token>>) {
    auth(fed).Ok? && answer == BuildProxyAuthorization(keyword, auth(fed).value)
  }

  lemma LegMidway(auth: Authenticator, fed: seq<Option<Token>>, keyword: AuthScheme, challenge: Option<Token>)
    requires |fed| <= DEFAULT_MAX_LEGS
    ensures var fed' := fed + [challenge];
            var (v, r) := LegAnswered(Midway(auth, fed), keyword, challenge);
            (r.Ok? <==> |fed| < DEFAULT_MAX_LEGS && StepSucceeds(auth, fed', |fed|))
            && (r.Ok? ==> v.handshake == Midway(auth, fed') && CarriesToken(r.value, auth, keyword, fed'))
  {
    assert (fed + [challenge])[..|fed| + 1] == fed + [challenge];
  }

  lemma {:induction false} LegAnswersMidway(
    auth: Authenticator, fed: seq<Option<Token>>, keyword: AuthScheme, challenges: seq<Option<Token>>)
    requires |fed| <= DEFAULT_MAX_LEGS
    ensures var all := fed + challenges;
            var answers := LegAnswers(Midway(auth, fed), keyword, challenges);
            (answers.Some? <==> Answerable(auth, all, |fed|))
            && (answers.Some? ==> AreTokens(answers.value, auth, keyword, all, |fed|))
    decreases |challenges|
  {
    hide LegAnswers, LegAnswered, Answerable, AreTokens, StepSucceeds, CarriesToken, Midway;
    var all := fed + challenges;
    if challenges == [] {
      assert all == fed;
      NoLegs(auth, fed, keyword);
    } else {
      var fed' := fed + [challenges[0]];
      LegMidway(auth, fed, keyword, challenges[0]);
      NextChallenge(fed, challenges);
      StepIsLocal(auth, all, fed', |fed|);
      var answer := LegAnswered(Midway(auth, fed), keyword, challenges[0]).1;
      LegAnswersStep(Midway(auth, fed), keyword, challenges);
      if answer.Err? {
        NothingBeyond(auth, all, |fed|);
      } else {
        LegAnswersMidway(auth, fed', keyword, challenges[1..]);
        AnswerableStep(auth, all, |fed|);
        var rest := LegAnswers(Midway(auth, fed'), keyword, challenges[1..]);
        if rest.Some? {
          AreTokensStep(answer.value, rest.value, auth, keyword, all, |fed|);
        }
      }
    }
  }

  lemma NoLegs(auth: Authenticator, fed: seq<Option<Token>>, keyword: AuthScheme)
    ensures LegAnswers(Midway(auth, fed), keyword, []) == Some([])
    ensures Answerable(auth, fed, |fed|) && AreTokens([], auth, keyword, fed, |fed|)
  {
  }

  lemma LegAnswersStep(h: HandshakeState, keyword: AuthScheme, challenges: seq<Option<Token>>)
    requires challenges != []
    ensures var (v', answer) := LegAnswered(h, keyword, challenges[0]);
            var rest := if answer.Ok? then LegAnswers(v'.handshake, keyword, challenges[1..]) else None;
            LegAnswers(h, keyword, challenges) == if rest.Some? then Some([answer.value] + rest.value) else None
  {
  }

  lemma NextChallenge(fed: seq<Option<Token>>, challenges: seq<Option<Token>>)
    requires challenges != []
    ensures var all, fed' := fed + challenges, fed + [challenges[0]];
            all == fed' + challenges[1..] && all[..|fed| + 1] == fed' == fed'[..|fed| + 1]
  {
  }

  lemma StepIsLocal(auth: Authenticator, a: seq<Option<Token>>, b: seq<Option<Token>>, k: nat)
    requires k < |a| && k < |b| && a[..k + 1] == b[..k + 1]
    ensures StepSucceeds(auth, a, k) == StepSucceeds(auth, b, k)
  {
    assert a[k] == a[..k + 1][k] && b[k] == b[..k + 1][k];
  }

  lemma NothingBeyond(auth: Authenticator, fed: seq<Option<Token>>, from: nat)
    requires from < |fed| && (from >= DEFAULT_MAX_LEGS || !StepSucceeds(auth, fed, from))
    ensures !Answerable(auth, fed, from)
  {
  }

  lemma AnswerableStep(auth: Authenticator, fed: seq<Option<Token>>, from: nat)
    requires from < |fed| && from < DEFAULT_MAX_LEGS
    ensures Answerable(auth, fed, from) <==> StepSucceeds(auth, fed, from) && Answerable(auth, fed, from + 1)
  {
  }

  lemma AreTokensStep(answer: string, rest: seq<string>, auth: Authenticator, keyword: AuthScheme,
                      fed: seq<Option<Token>>, from: nat)
    requires from < |fed| && CarriesToken(answer, auth, keyword, fed[..from + 1])
    requires AreTokens(rest, auth, keyword, fed, from + 1)
    ensures AreTokens([answer] + rest, auth, keyword, fed, from)
  {
    var answers := [answer] + rest;
    forall i: nat | i < |answers|
      ensures CarriesToken(answers[i], auth, keyword, fed[..from + i + 1])
    {
      if i > 0 {
        assert answers[i] == rest[i - 1];
        assert from + 1 + (i - 1) + 1 == from + i + 1;
      }
    }
  }

  /** On one connection in Negotiate mode, over every run of 407s and every authenticator: the run is
      answered exactly when its first 407 offers Negotiate or NTLM or no challenge at all, it is at most
      ten long, every later 407 carries a challenge, and every authenticator step succeeds. Each value
      then carries the keyword that the first 407 offered, Negotiate if it offered none, and the token
      of the step fed with the challenges of the 407s so far. */
  lemma NegotiateRun(auth: Authenticator, run: seq<Headers>)
    requires run != []
    ensures var answers := Answers(NewState(NegotiateAuth(auth)), run);
            var offered := OfferIn(run[0]).Scheme();
            (answers.Some? <==> (offered.Some? || Challenges(run[0]) == []) && Answerable(auth, Fed(run), 0))
            && (answers.Some? ==>
                  AreTokens(answers.value, auth, if offered.Some? then offered.value else Negotiate, Fed(run), 0))
  {
    hide OfferIn, Challenges, Answerable, AreTokens;
    var first := FirstLegScheme(run[0]);
    if first.Ok? {
      KeywordIsKept(Fresh(auth, DEFAULT_MAX_LEGS), None, first.value, run);
      assert [] + Fed(run) == Fed(run);
      LegAnswersMidway(auth, [], first.value, Fed(run));
    } else {
      RuledOut(Fresh(auth, DEFAULT_MAX_LEGS), run);
    }
  }

  lemma RuledOut(h: HandshakeState, run: seq<Headers>)
    requires run != [] && FirstLegScheme(run[0]).Err?
    ensures Answers(NegotiateState(h, None), run) == None
  {
  }

  /** How many 407s a connection can ever answer. */
  function AnswerBound(v: AuthValue): nat {
    match v
    case NoneState => 0
    case BasicState(_, sent) => if sent then 0 else 1
    case NegotiateState(h, _) => if h.legs >= h.maxLegs then 0 else h.maxLegs - h.legs
  }

  /** Each answer uses up one of them. */
  lemma AnswerUsesBound(v: AuthValue, headers: Headers)
    ensures var (v', r) := Answered(v, headers);
            r.Ok? ==> AnswerBound(v) > 0 && AnswerBound(v') == AnswerBound(v) - 1
  {
  }

  lemma {:induction false} AnswersAreBounded(v: AuthValue, run: seq<Headers>)
    requires Answers(v, run).Some?
    ensures |run| <= AnswerBound(v)
    decreases |run|
  {
    if run != [] {
      AnswerUsesBound(v, run[0]);
      AnswersAreBounded(Answered(v, run[0]).0, run[1..]);
    }
  }
}

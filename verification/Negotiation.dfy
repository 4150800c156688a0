/** A whole negotiated `CONNECT`, from the printed challenges of the upstream's responses to the tokens in
    the requests and the bytes of the tunnel. */
module Negotiation {
  import opened Results
  import opened AuthHeader
  import opened UpstreamAuth
  import opened Wire
  import opened Connect
  import Handshake
  import Framing
  import ChallengePrinter

  /** The 407s of a dialogue, and what each of them offers: a scheme and a token, a bare scheme, or neither. */
  datatype Leg = Leg(
    response: Framing.Response, fields: seq<ChallengePrinter.Field>, scheme: Option<AuthScheme>, token: Option<Token>)
  {
    /** Challenges were printed, but none for Negotiate or NTLM. */
    predicate RulesOut() {
      scheme.None? && ChallengePrinter.AllChallenges(fields) != []
    }

    function Keyword(): AuthScheme {
      if scheme.Some? then scheme.value else Negotiate
    }
  }

  /** A well-framed 407 whose header fields are the printed ones, which offer the scheme and the token. */
  ghost predicate ValidLeg(leg: Leg) {
    Framing.WellFramed(leg.response) && leg.response.status == PROXY_AUTH_REQUIRED
    && ChallengePrinter.ValidFields(leg.fields)
    && Framing.Reported(Framing.Fields(leg.response)) == ChallengePrinter.PrintFields(leg.fields)
    && ChallengePrinter.Offers(ChallengePrinter.AllChallenges(leg.fields), leg.scheme, leg.token)
  }

  ghost predicate ValidLegs(legs: seq<Leg>) {
    forall k | 0 <= k < |legs| :: ValidLeg(legs[k])
  }

  function Responses(legs: seq<Leg>): (r: seq<Framing.Response>)
    ensures |r| == |legs|
  {
    if legs == [] then [] else [legs[0].response] + Responses(legs[1..])
  }

  function Tokens(legs: seq<Leg>): (r: seq<Option<Token>>)
    ensures |r| == |legs|
  {
    if legs == [] then [] else [legs[0].token] + Tokens(legs[1..])
  }

  /** What the upstream sends: the 407s, the head of the grant, and the tunnel's bytes. */
  function Dialogue(legs: seq<Leg>, grant: Framing.Response, tunnel: string): string {
    ResponsesText(Responses(legs)) + (Framing.HeadText(grant) + tunnel)
  }

  lemma LegIsOffered(leg: Leg)
    requires ValidLeg(leg)
    ensures var offer := OfferIn(Framing.Reported(Framing.Fields(leg.response)));
            offer.Scheme() == leg.scheme && offer.ChallengeToken() == leg.token
  {
    hide Framing.WellFramed, ChallengePrinter.ValidFields, ChallengePrinter.Offers;
    ChallengePrinter.ContinuationTokenArrives(leg.fields, leg.scheme, leg.token);
  }

  /** The responses are challenges, and the authenticator is fed exactly the printed tokens. */
  lemma {:induction false} TokensAreFed(legs: seq<Leg>)
    requires ValidLegs(legs)
    ensures AreChallenges(Responses(legs)) && Fed(Reports(Responses(legs))) == Tokens(legs)
    decreases |legs|
  {
    hide OfferIn, Framing.WellFramed, Framing.Reported;
    if legs != [] {
      var rs := Responses(legs);
      assert ValidLeg(legs[0]);
      TokensAreFed(legs[1..]);
      LegIsOffered(legs[0]);
      assert rs[1..] == Responses(legs[1..]) && Reports(rs)[1..] == Reports(rs[1..]);
      assert forall k | 0 < k < |rs| :: rs[k] == rs[1..][k - 1];
    }
  }

  /** The requests of a negotiation, as a gateway reads them: the first without credentials, then one with
      the authenticator's token for each 407, under one keyword. */
  ghost predicate CarriesEachToken(sent: seq<string>, auth: Handshake.Authenticator, keyword: AuthScheme,
                                   tokens: seq<Option<Token>>)
  {
    |sent| == |tokens| + 1 && CredentialsIn(sent[0]) == None
    && forall k | 1 <= k < |sent| :: CarriesTokenOf(sent[k], auth, keyword, tokens[..k])
  }

  /** The credentials in the request name the keyword and hold the token of the step fed with `fed`. */
  ghost predicate CarriesTokenOf(request: string, auth: Handshake.Authenticator, keyword: AuthScheme,
                                 fed: seq<Option<Token>>)
  {
    auth(fed).Ok? && CredentialsIn(request).Some?
    && ParseProxyAuthenticate(CredentialsIn(request).value) ==
       if auth(fed).value == [] then Offered(keyword) else Challenge(keyword, auth(fed).value)
  }

  lemma {:induction false} RequestIs(dst: string, header: Option<string>, answers: seq<string>, k: nat)
    requires k <= |answers|
    ensures Requests(dst, header, answers)[k] == ConnectRequest(dst, if k == 0 then header else Some(answers[k - 1]))
    decreases |answers|
  {
    hide ConnectRequest;
    if k > 0 {
      RequestIs(dst, Some(answers[0]), answers[1..], k - 1);
    }
  }

  lemma ValueIsRead(dst: string, keyword: AuthScheme, token: Token)
    requires IsLineText(dst)
    ensures var read := CredentialsIn(ConnectRequest(dst, Some(BuildProxyAuthorization(keyword, token))));
            read.Some?
            && ParseProxyAuthenticate(read.value) == if token == [] then Offered(keyword) else Challenge(keyword, token)
  {
    hide ConnectRequest, BuildProxyAuthorization, ParseProxyAuthenticate, CredentialsIn;
    var value := BuildProxyAuthorization(keyword, token);
    ValueIsOneLine(keyword, token);
    CredentialsAreRead(dst, Some(value));
    TrimmedValueParses(value);
    TokenIsRecovered(keyword, token);
  }

  lemma AnswersCarryTokens(answers: seq<string>, auth: Handshake.Authenticator, keyword: AuthScheme,
                           tokens: seq<Option<Token>>, dst: string)
    requires AreTokens(answers, auth, keyword, tokens, 0) && IsLineText(dst)
    ensures CarriesEachToken(Requests(dst, None, answers), auth, keyword, tokens)
  {
    hide ConnectRequest, BuildProxyAuthorization, ParseProxyAuthenticate, Requests, CredentialsIn;
    var sent := Requests(dst, None, answers);
    RequestIs(dst, None, answers, 0);
    CredentialsAreRead(dst, None);
    forall k | 1 <= k < |sent|
      ensures CarriesTokenOf(sent[k], auth, keyword, tokens[..k])
    {
      RequestIs(dst, None, answers, k);
      assert CarriesToken(answers[k - 1], auth, keyword, tokens[..0 + (k - 1) + 1]);
      ValueIsRead(dst, keyword, auth(tokens[..k]).value);
    }
  }

  /** Over every authenticator, every run of printed 407s and every tunnel: the tunnel is reached if and only
      if the first 407 prints a Negotiate or NTLM challenge or none at all, there are at most ten 407s,
      each after the first brings a token, and every step of the authenticator succeeds. Step k is then
      fed exactly the token printed in the k-th 407, a gateway reads that step's token from the text of
      the request after it, under the keyword offered first, and the bytes left are the tunnel's. */
  lemma TokensTravel(legs: seq<Leg>, grant: Framing.Response, tunnel: string,
                     auth: Handshake.Authenticator, end: End, writes: nat, dst: string, reused: bool)
    requires legs != [] && ValidLegs(legs) && writes > |legs|
    requires Framing.ValidHead(grant) && grant.status == OK_STATUS
    ensures var talk := HandshakeTalk(NegotiateAuth(auth), Dialogue(legs, grant, tunnel), end, writes, dst, reused);
            (talk.result == Ok(()) <==> !legs[0].RulesOut() && Answerable(auth, Tokens(legs), 0))
            && (talk.result == Ok(()) ==>
                  talk.rest == tunnel
                  && (IsLineText(dst) ==> CarriesEachToken(talk.sent, auth, legs[0].Keyword(), Tokens(legs))))
  {
    hide HandshakeTalk, ResponsesText, Reports, Framing.HeadText, Framing.ValidHead, Answers, Fed, Requests,
      CarriesEachToken, Answerable, AreTokens, AreChallenges, OfferIn, Challenges, ValidLeg, Responses, Tokens,
      ConnectRequest, Leg.RulesOut, Leg.Keyword;
    var rs, mode := Responses(legs), NegotiateAuth(auth);
    TokensAreFed(legs);
    FirstKeyword(legs);
    NegotiateRun(auth, Reports(rs));
    if !legs[0].RulesOut() && Answerable(auth, Tokens(legs), 0) {
      TunnelIsReached(rs, grant, tunnel, mode, end, writes, dst, reused);
      if IsLineText(dst) {
        AnswersCarryTokens(Answers(NewState(mode), Reports(rs)).value, auth, legs[0].Keyword(), Tokens(legs), dst);
      }
    } else {
      UnansweredHandshakeFails(rs, Framing.HeadText(grant) + tunnel, mode, end, writes, dst, reused);
    }
  }

  lemma FirstKeyword(legs: seq<Leg>)
    requires legs != [] && ValidLeg(legs[0])
    ensures var first := Reports(Responses(legs))[0];
            var offered := OfferIn(first).Scheme();
            (offered.Some? || Challenges(first) == [] <==> !legs[0].RulesOut())
            && legs[0].Keyword() == if offered.Some? then offered.value else Negotiate
  {
    hide OfferIn, ValidLeg, Challenges, ChallengePrinter.Heads;
    LegIsOffered(legs[0]);
    NothingPrintedNothingRead(legs[0]);
  }

  lemma NothingPrintedNothingRead(leg: Leg)
    requires ValidLeg(leg)
    ensures Challenges(Framing.Reported(Framing.Fields(leg.response))) == []
            <==> ChallengePrinter.AllChallenges(leg.fields) == []
  {
    hide Challenges, Framing.WellFramed, ChallengePrinter.Offers, ChallengePrinter.ValidFields;
    ChallengePrinter.ReaderInvertsPrinter(leg.fields);
  }

  /** Where the first 407 prints only other schemes, the handshake ends at once: one request is sent,
      without credentials, and the error lists exactly the printed schemes, in order. */
  lemma OtherSchemesAreReported(leg: Leg, rest: string, auth: Handshake.Authenticator, end: End, writes: nat,
                                dst: string, reused: bool)
    requires ValidLeg(leg) && leg.RulesOut() && writes > 0
    ensures var talk := HandshakeTalk(NegotiateAuth(auth), Framing.ResponseText(leg.response) + rest, end, writes, dst,
                                      reused);
            var printed := ChallengePrinter.Schemes(ChallengePrinter.AllChallenges(leg.fields));
            talk.result == Err(Connect.Failed(Auth(NoUsableScheme(printed)))) && talk.rest == rest
            && talk.sent == [ConnectRequest(dst, None)]
  {
    hide LegResponse, ConnectRequest, Framing.ResponseText, Framing.Framed, Framing.Reported, Answered,
      ChallengePrinter.Offers, ChallengePrinter.ValidFields;
    ChallengePrinter.FirstAnswer(auth, leg.fields, leg.scheme, leg.token);
    ChallengeIsRead(leg.response, rest, end);
    assert Framing.Leftover(leg.response.body) + rest == rest;
  }
}

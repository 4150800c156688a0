/** The Negotiate handshake machine: it feeds each challenge to the authenticator and caps the
    number of tokens it will produce. */
module Handshake {
  import opened Results
  import opened AuthHeader

  const DEFAULT_MAX_LEGS: nat := 10

  datatype AuthError = TooManyLegs(max: nat) | Rejected | AuthenticatorFailed(reason: string)

  /** An arbitrary stateful authenticator: its next token, or its failure, is a function of every
      challenge it has been stepped with so far, the current one last. */
  type Authenticator = seq<Option<Token>> -> Result<Token, AuthError>

  datatype UpstreamResponse = ProxyAuthRequired(challenge: Option<Token>) | Success | Other(status: nat)

  datatype HandshakeStep = SendToken(token: Token) | Complete

  /** The machine's fields; `fed` is the authenticator's state. */
  datatype HandshakeState = HandshakeState(
    auth: Authenticator, fed: seq<Option<Token>>, legs: nat, maxLegs: nat, started: bool, done: bool)

  function Fresh(auth: Authenticator, maxLegs: nat): HandshakeState {
    HandshakeState(auth, [], 0, maxLegs, false, false)
  }

  function Advanced(h: HandshakeState, challenge: Option<Token>)
    : (HandshakeState, Result<HandshakeStep, AuthError>)
  {
    if h.started && challenge.None? then (h, Err(Rejected))
    else if h.legs >= h.maxLegs then (h, Err(TooManyLegs(h.maxLegs)))
    else
      var fed := h.fed + [challenge];
      match h.auth(fed)
      case Ok(token) => (h.(fed := fed, legs := h.legs + 1, started := true), Ok(SendToken(token)))
      case Err(e) => (h.(fed := fed), Err(e))
  }

  function Responded(h: HandshakeState, response: UpstreamResponse)
    : (HandshakeState, Result<HandshakeStep, AuthError>)
  {
    if h.done then (h, Ok(Complete))
    else if response.ProxyAuthRequired? then Advanced(h, response.challenge)
    else (h.(done := true), Ok(Complete))
  }

  class NegotiateHandshake {
    const auth: Authenticator
    const maxLegs: nat
    var fed: seq<Option<Token>>
    var legs: nat
    var started: bool
    var done: bool

    constructor (auth: Authenticator)
      ensures State() == Fresh(auth, DEFAULT_MAX_LEGS)
    {
      this.auth, this.maxLegs := auth, DEFAULT_MAX_LEGS;
      fed, legs, started, done := [], 0, false, false;
    }

    ghost function State(): HandshakeState
      reads this
    {
      HandshakeState(auth, fed, legs, maxLegs, started, done)
    }

    method OnResponse(response: UpstreamResponse) returns (r: Result<HandshakeStep, AuthError>)
      modifies this
      ensures (State(), r) == Responded(old(State()), response)
    {
      if done {
        return Ok(Complete);
      }
      match response {
        case ProxyAuthRequired(challenge) =>
          r := Advance(challenge);
        case _ =>
          done := true;
          r := Ok(Complete);
      }
    }

    method Advance(challenge: Option<Token>) returns (r: Result<HandshakeStep, AuthError>)
      modifies this
      ensures (State(), r) == Advanced(old(State()), challenge)
    {
      if started && challenge.None? {
        return Err(Rejected);
      }
      if legs >= maxLegs {
        return Err(TooManyLegs(maxLegs));
      }
      fed := fed + [challenge];
      match auth(fed) {
        case Ok(token) =>
          legs := legs + 1;
          started := true;
          r := Ok(SendToken(token));
        case Err(e) =>
          r := Err(e);
      }
    }
  }

  // ---------- Every run of the machine ----------

  /** The tokens sent for a run of responses, and the state it ends in. */
  function Run(h: HandshakeState, responses: seq<UpstreamResponse>): (r: (HandshakeState, seq<Token>))
    decreases |responses|
  {
    if responses == [] then (h, [])
    else
      var (h', step) := Responded(h, responses[0]);
      var (end, tokens) := Run(h', responses[1..]);
      (end, (if step.Ok? && step.value.SendToken? then [step.value.token] else []) + tokens)
  }

  /** However the upstream answers and however the authenticator behaves: `legs` counts the tokens
      sent, their number never exceeds the cap, and after a first token nothing is sent unless
      the upstream supplied a challenge. */
  lemma {:induction false} TokensAreCapped(h: HandshakeState, responses: seq<UpstreamResponse>)
    requires h.legs <= h.maxLegs && (h.started <==> h.legs > 0)
    ensures var (end, tokens) := Run(h, responses);
            end.legs == h.legs + |tokens| <= h.maxLegs == end.maxLegs && (end.started <==> end.legs > 0)
    ensures h.started && (forall i | 0 <= i < |responses| :: responses[i] == ProxyAuthRequired(None))
            ==> Run(h, responses).1 == []
    ensures h.done ==> Run(h, responses) == (h, [])
    decreases |responses|
  {
    if responses != [] {
      var (h', step) := Responded(h, responses[0]);
      TokensAreCapped(h', responses[1..]);
    }
  }
}

/** The authenticated `CONNECT` handshake with an upstream proxy on a raw socket, the rule that
    allows one fresh dial after a stale pooled socket, and the same loop on the HTTP path. */
module Connect {
  import opened Results
  import opened Text
  import opened AuthHeader
  import opened Handshake
  import opened UpstreamAuth
  import opened Wire
  import Framing

  const MAX_LEGS: nat := 12
  const OK_STATUS: nat := 200
  const PROXY_AUTH_REQUIRED: nat := 407

  datatype Reason =
    | Io(error: IoError)
    | Refused(status: nat)
    | Auth(failure: AuthFailure)
    | ExhaustedLegs

  /** Why a handshake failed; only a stale reused socket may be replaced by a fresh dial. */
  datatype Failure = Stale(error: IoError) | Failed(reason: Reason)

  function ConnectRequest(dst: string, header: Option<string>): string {
    "CONNECT " + dst + " HTTP/1.1" + CRLF
    + ("Host: " + dst + CRLF)
    + ("Proxy-Connection: keep-alive" + CRLF)
    + (if header.Some? then "Proxy-Authorization: " + header.value + CRLF else "")
    + CRLF
  }

  // ---------- What a gateway reads from a request ----------

  predicate IsLineText(s: string) {
    CR !in s && LF !in s
  }

  /** The fields that a gateway reads from a request whose lines are `lines`. */
  function FieldsRead(request: string): Headers {
    HeadersOfLines(SplitLines(request)[1..])
  }

  /** A request is one head, to its end whatever follows. Its first line asks for the destination, and a
      gateway reads the credentials from its fields exactly when a value is given. */
  lemma GatewayReads(dst: string, header: Option<string>, more: string)
    requires IsLineText(dst) && (header.Some? ==> IsLineText(header.value))
    ensures var request := ConnectRequest(dst, header);
            Terminated(request + more, "\r\n\r\n") ==
              (if |request| <= MAX_HEAD_BYTES + 1 then Some(|request|) else None)
            && SplitLines(request)[0] == "CONNECT " + dst + " HTTP/1.1"
            && FieldsRead(request) ==
               [("host", Trim(dst)), ("proxy-connection", "keep-alive")]
               + if header.Some? then [("proxy-authorization", Trim(header.value))] else []
  {
    hide ConnectRequest, HeadersOfLines, SplitLines, Trim, Framing.Lines, Framing.AreHeadLines, Terminated;
    var lines := RequestLines(dst, header);
    RequestIsLines(dst, header);
    RequestLinesAreHeadLines(dst, header);
    Framing.HeadEnds(lines, more);
    Framing.SplitHead(lines);
    RequestFields(dst, header);
    assert (lines + ["", ""])[1..] == lines[1..] + ["", ""];
  }

  function RequestLines(dst: string, header: Option<string>): seq<string> {
    ["CONNECT " + dst + " HTTP/1.1", "Host: " + dst, "Proxy-Connection: keep-alive"]
    + if header.Some? then ["Proxy-Authorization: " + header.value] else []
  }

  lemma RequestIsLines(dst: string, header: Option<string>)
    ensures ConnectRequest(dst, header) == Framing.Lines(RequestLines(dst, header))
  {
    var first, host, connection := "CONNECT " + dst + " HTTP/1.1", "Host: " + dst, "Proxy-Connection: keep-alive";
    if header.Some? {
      Framing.FourLines(first, host, connection, "Proxy-Authorization: " + header.value);
    } else {
      Framing.ThreeLines(first, host, connection);
      assert [first, host, connection] + [] == [first, host, connection];
    }
  }

  lemma RequestLinesAreHeadLines(dst: string, header: Option<string>)
    requires IsLineText(dst) && (header.Some? ==> IsLineText(header.value))
    ensures Framing.AreHeadLines(RequestLines(dst, header))
  {
  }

  /** A line `name: value` reads as the lower-cased name with the trimmed value. */
  lemma FieldIsRead(name: string, value: string)
    requires ':' !in name && Trimmed(name)
    ensures HeaderOfLine(name + ": " + value) == [(ToLower(name), Trim(value))]
  {
    SplitOnceAt(name, ':', " " + value);
    assert name + ": " + value == name + [':'] + (" " + value);
    TrimTrimmed(name);
    assert Trim(" " + value) == Trim(value) by {
      assert (" " + value)[1..] == value;
    }
  }

  lemma HostInLowerCase()
    ensures ToLower("Host") == "host"
  {
    hide ToLower;
    LowerIs("Host", "host");
  }

  lemma ConnectionInLowerCase()
    ensures ToLower("Proxy-Connection") == "proxy-connection"
  {
    hide ToLower;
    LowerIs("Proxy-Connection", "proxy-connection");
  }

  lemma AuthorizationInLowerCase()
    ensures ToLower("Proxy-Authorization") == "proxy-authorization"
  {
    hide ToLower;
    LowerIs("Proxy-Authorization", "proxy-authorization");
  }

  lemma RequestFields(dst: string, header: Option<string>)
    ensures HeadersOfLines(RequestLines(dst, header)[1..] + ["", ""]) ==
            [("host", Trim(dst)), ("proxy-connection", "keep-alive")]
            + if header.Some? then [("proxy-authorization", Trim(header.value))] else []
  {
    hide HeaderOfLine, ToLower, Trim, HeadersOfLines;
    var host, connection := "Host: " + dst, "Proxy-Connection: keep-alive";
    HostInLowerCase();
    ConnectionInLowerCase();
    AuthorizationInLowerCase();
    FieldIsRead("Host", dst);
    FieldIsRead("Proxy-Connection", "keep-alive");
    assert "Host" + ": " == "Host: " && "Proxy-Connection" + ": " + "keep-alive" == connection;
    TrimTrimmed("keep-alive");
    Framing.BlankLinesReportNothing();
    if header.Some? {
      var authorization := "Proxy-Authorization: " + header.value;
      FieldIsRead("Proxy-Authorization", header.value);
      assert "Proxy-Authorization" + ": " == "Proxy-Authorization: ";
      FirstFields(host, connection, [authorization, "", ""]);
      OneField(authorization);
      assert RequestLines(dst, header)[1..] + ["", ""] == [host, connection] + [authorization, "", ""];
    } else {
      FirstFields(host, connection, ["", ""]);
      assert RequestLines(dst, header)[1..] + ["", ""] == [host, connection] + ["", ""];
    }
  }

  lemma OneField(line: string)
    ensures HeadersOfLines([line, "", ""]) == HeaderOfLine(line) + HeadersOfLines(["", ""])
  {
    hide HeaderOfLine;
    assert [line, "", ""][1..] == ["", ""];
  }

  lemma FirstFields(a: string, b: string, more: seq<string>)
    ensures HeadersOfLines([a, b] + more) == HeaderOfLine(a) + (HeaderOfLine(b) + HeadersOfLines(more))
  {
    hide HeaderOfLine;
    var lines := [a, b] + more;
    assert lines[1..] == [b] + more && lines[1..][1..] == more;
  }

  /** The credentials in a request, if it has any. */
  function CredentialsIn(request: string): Option<string> {
    HeaderNamed(FieldsRead(request), "proxy-authorization")
  }

  lemma CredentialsAreRead(dst: string, header: Option<string>)
    requires IsLineText(dst) && (header.Some? ==> IsLineText(header.value))
    ensures CredentialsIn(ConnectRequest(dst, header)) ==
            if header.Some? then Some(Trim(header.value)) else None
  {
    hide ConnectRequest, Trim, FieldsRead;
    GatewayReads(dst, header, "");
    LastField(Trim(dst), if header.Some? then Some(Trim(header.value)) else None);
  }

  lemma LastField(host: string, value: Option<string>)
    ensures HeaderNamed([("host", host), ("proxy-connection", "keep-alive")]
                        + (if value.Some? then [("proxy-authorization", value.value)] else []), "proxy-authorization")
         == value
  {
    var fields := [("host", host), ("proxy-connection", "keep-alive")]
                  + if value.Some? then [("proxy-authorization", value.value)] else [];
    var last: Headers := if value.Some? then [("proxy-authorization", value.value)] else [];
    assert fields[1..] == [("proxy-connection", "keep-alive")] + last && fields[1..][1..] == last;
    assert HeaderNamed(last, "proxy-authorization") == value;
  }

  // ---------- Specification of one handshake ----------

  /** How a handshake ends: its result, the bytes left unread, the requests written, and the header
      fields of the 407s met, in order. */
  datatype Talk = Talk(result: Result<(), Failure>, rest: string, sent: seq<string>, met: seq<Headers>)
  {
    function After(earlierSent: seq<string>, earlierMet: seq<Headers>): Talk {
      Talk(result, rest, earlierSent + sent, earlierMet + met)
    }
  }

  /** The part of one leg after a request is written: what the response makes of the connection. */
  datatype LegEnd =
    | Granted(tunnel: string)
    | Stopped(reason: Reason, left: string)
    | Challenged(headers: Headers, next: string)

  function LegResponse(s: string, end: End): LegEnd {
    var head := HeadRead(s, end);
    match head.result
    case Err(e) => Stopped(Io(e), head.rest)
    case Ok((status, headers)) =>
      if status == OK_STATUS then Granted(head.rest)
      else
        var body := BodyDrained(head.rest, end, headers);
        match body.result
        case Err(e) => Stopped(Io(e), body.rest)
        case Ok(_) =>
          if status == PROXY_AUTH_REQUIRED then Challenged(headers, body.rest)
          else Stopped(Refused(status), body.rest)
  }

  /** A tunnel is granted by a status of 200, from the byte after its head; a 407 is a challenge once its
      body is drained; any other status stops the loop as a refusal. */
  lemma LegMeans(s: string, end: End)
    ensures var head, leg := HeadRead(s, end), LegResponse(s, end);
            (leg.Granted? <==> head.result.Ok? && head.result.value.0 == 200)
            && (leg.Granted? ==> leg.tunnel == head.rest)
            && (leg.Challenged? ==> head.result.value.0 == 407 && leg.headers == head.result.value.1)
            && (leg.Stopped? && leg.reason.Refused? ==>
                  head.result.value.0 == leg.reason.status && leg.reason.status != 200 && leg.reason.status != 407)
  {
    hide HeadRead, BodyDrained;
  }

  /** The whole conversation from leg `leg` on, with `s` still to be read and `writes` writes that
      will succeed. */
  function Conversation(
    v: AuthValue, header: Option<string>, s: string, end: End, writes: nat, dst: string, reused: bool, leg: nat)
    : Talk
    requires leg <= MAX_LEGS
    decreases MAX_LEGS - leg
  {
    var request := ConnectRequest(dst, header);
    var mayBeStale := reused && leg == 0;
    if leg == MAX_LEGS then Talk(Err(Failed(ExhaustedLegs)), s, [], [])
    else if writes == 0 then
      Talk(Err(if mayBeStale then Stale(Transport) else Failed(Io(Transport))), s, [request], [])
    else if mayBeStale && s == "" then
      Talk(Err(Stale(EndError(end, ClosedBeforeResponse))), s, [request], [])
    else
      match LegResponse(s, end)
      case Granted(tunnel) => Talk(Ok(()), tunnel, [request], [])
      case Stopped(reason, left) => Talk(Err(Failed(reason)), left, [request], [])
      case Challenged(headers, next) =>
        var (v', answer) := Answered(v, headers);
        match answer
        case Err(failure) => Talk(Err(Failed(Auth(failure))), next, [request], [headers])
        case Ok(value) =>
          Conversation(v', Some(value), next, end, writes - 1, dst, reused, leg + 1)
            .After([request], [headers])
  }

  /** A whole handshake on a socket, from a new driver. */
  function HandshakeTalk(mode: AuthMode, s: string, end: End, writes: nat, dst: string, reused: bool): Talk {
    var (v, header) := Opened(NewState(mode));
    Conversation(v, header, s, end, writes, dst, reused, 0)
  }

  lemma AfterNothing(t: Talk)
    ensures t.After([], []) == t
  {
    assert [] + t.sent == t.sent && [] + t.met == t.met;
  }

  lemma AfterTwice(t: Talk, a: seq<string>, b: seq<Headers>, c: seq<string>, d: seq<Headers>)
    ensures t.After(a, b).After(c, d) == t.After(c + a, d + b)
  {
    assert c + (a + t.sent) == c + a + t.sent;
    assert d + (b + t.met) == d + b + t.met;
  }

  // ---------- The handshake ----------

  method SendLeg(stream: Socket, dst: string, header: Option<string>, firstReused: bool)
    returns (r: Result<Head, Failure>)
    modifies stream
    ensures stream.sent == old(stream.sent) + [ConnectRequest(dst, header)]
    ensures stream.writes == if old(stream.writes) == 0 then 0 else old(stream.writes) - 1
    ensures old(stream.writes) == 0 ==>
              stream.unread == old(stream.unread)
              && r == Err(if firstReused then Stale(Transport) else Failed(Io(Transport)))
    ensures old(stream.writes) > 0 && firstReused && old(stream.unread) == "" ==>
              stream.unread == "" && r == Err(Stale(EndError(stream.end, ClosedBeforeResponse)))
    ensures old(stream.writes) > 0 && !(firstReused && old(stream.unread) == "") ==>
              var head := HeadRead(old(stream.unread), stream.end);
              stream.unread == head.rest
              && r == if head.result.Ok? then Ok(head.result.value) else Err(Failed(Io(head.result.error)))
  {
    hide HeadRead, ConnectRequest;
    var written := stream.WriteAll(ConnectRequest(dst, header));
    if written.Err? {
      return Err(if firstReused then Stale(written.error) else Failed(Io(written.error)));
    }
    if firstReused {
      var awaited := stream.AwaitResponse();
      if awaited.Err? {
        return Err(Stale(awaited.error));
      }
    }
    var head := ReadHead(stream);
    r := if head.Ok? then Ok(head.value) else Err(Failed(Io(head.error)));
  }

  /** Runs the 407 loop; the socket is left where the specification says, and so are the requests
      written to it. */
  method RunHandshake(stream: Socket, reused: bool, mode: AuthMode, dst: string) returns (r: Result<(), Failure>)
    modifies stream
    ensures var talk := HandshakeTalk(mode, old(stream.unread), stream.end, old(stream.writes), dst, reused);
            r == talk.result && stream.unread == talk.rest && stream.sent == old(stream.sent) + talk.sent
  {
    hide HeadRead, BodyDrained, ConnectRequest, Answered, Opened, NewState;
    ghost var talk := HandshakeTalk(mode, stream.unread, stream.end, stream.writes, dst, reused);
    var state := new AuthState(mode);
    var header := state.InitialHeader();
    ghost var sent: seq<string>, met: seq<Headers> := [], [];
    AfterNothing(talk);
    for leg := 0 to MAX_LEGS
      invariant state.Valid() && fresh(state) && (state.handshake != null ==> fresh(state.handshake))
      invariant stream.sent == old(stream.sent) + sent
      invariant talk == Conversation(state.Value(), header, stream.unread, stream.end, stream.writes, dst, reused, leg)
                          .After(sent, met)
    {
      ghost var v, h, s, writes := state.Value(), header, stream.unread, stream.writes;
      var response := SendLeg(stream, dst, header, reused && leg == 0);
      ghost var request := ConnectRequest(dst, header);
      assert old(stream.sent) + sent + [request] == old(stream.sent) + (sent + [request]);
      if response.Err? {
        return Err(response.error);
      }
      var (status, headers) := response.value;
      if status == OK_STATUS {
        return Ok(());
      }
      var drained := DrainBody(stream, headers);
      if drained.Err? {
        return Err(Failed(Io(drained.error)));
      }
      if status != PROXY_AUTH_REQUIRED {
        return Err(Failed(Refused(status)));
      }
      assert LegResponse(s, stream.end) == Challenged(headers, stream.unread);
      var answer := state.OnChallenge(headers);
      if answer.Err? {
        return Err(Failed(Auth(answer.error)));
      }
      header := Some(answer.value);
      ghost var rest := Conversation(state.Value(), header, stream.unread, stream.end, stream.writes, dst, reused, leg + 1);
      assert Conversation(v, h, s, stream.end, writes, dst, reused, leg) == rest.After([request], [headers]);
      AfterTwice(rest, [request], [headers], sent, met);
      sent, met := sent + [request], met + [headers];
    }
    return Err(Failed(ExhaustedLegs));
  }

  function IntoReason(failure: Failure): Reason {
    match failure
    case Stale(error) => Io(error)
    case Failed(reason) => reason
  }

  predicate IsStale(r: Result<(), Failure>) {
    r.Err? && r.error.Stale?
  }

  /** One `CONNECT`: the pooled socket if there is one, and a fresh dial, whose outcome is `dialed`,
      only if there is none or if it proved stale. */
  method ConnectVia(pooled: Socket?, mode: AuthMode, dst: string, dialed: Result<Socket, IoError>)
    returns (r: Result<Socket, Reason>)
    requires pooled != null && dialed.Ok? ==> pooled != dialed.value
    modifies pooled, if dialed.Ok? then {dialed.value} else {}
    ensures pooled != null ==>
              var talk := old(HandshakeTalk(mode, pooled.unread, pooled.end, pooled.writes, dst, true));
              pooled.sent == old(pooled.sent) + talk.sent && pooled.unread == talk.rest
              && (!IsStale(talk.result) ==>
                    r == (if talk.result.Ok? then Ok(pooled) else Err(IntoReason(talk.result.error)))
                    && (dialed.Ok? ==> unchanged(dialed.value)))
    ensures pooled == null || old(IsStale(HandshakeTalk(mode, pooled.unread, pooled.end, pooled.writes, dst, true).result)) ==>
              match dialed
              case Err(error) => r == Err(Io(error))
              case Ok(fresh') =>
                var talk := old(HandshakeTalk(mode, fresh'.unread, fresh'.end, fresh'.writes, dst, false));
                fresh'.sent == old(fresh'.sent) + talk.sent && fresh'.unread == talk.rest
                && r == if talk.result.Ok? then Ok(fresh') else Err(IntoReason(talk.result.error))
  {
    hide Conversation;
    if pooled != null {
      var first := RunHandshake(pooled, true, mode, dst);
      match first {
        case Ok(_) =>
          return Ok(pooled);
        case Err(Failed(reason)) =>
          return Err(reason);
        case Err(Stale(_)) =>
      }
    }
    match dialed {
      case Err(error) =>
        r := Err(Io(error));
      case Ok(stream) =>
        var second := RunHandshake(stream, false, mode, dst);
        r := if second.Ok? then Ok(stream) else Err(IntoReason(second.error));
    }
  }

  // ---------- Retry safety ----------

  /** A pooled socket is given up for a fresh one exactly when the write failed or the upstream sent
      nothing; then not a single byte of it was consumed and one request was handed to it. A
      fresh socket is never given up. */
  lemma StaleMeansUnanswered(mode: AuthMode, s: string, end: End, writes: nat, dst: string)
    ensures var talk := HandshakeTalk(mode, s, end, writes, dst, true);
            (IsStale(talk.result) <==> writes == 0 || s == "")
            && (IsStale(talk.result) ==> talk.rest == s && |talk.sent| == 1 && talk.met == [])
    ensures !IsStale(HandshakeTalk(mode, s, end, writes, dst, false).result)
  {
    hide LegResponse, ConnectRequest, Answered;
    var (v, header) := Opened(NewState(mode));
    if writes != 0 && s != "" {
      StaysUsed(v, header, s, end, writes, dst, true, 0);
    }
    StaysUsed(v, header, s, end, writes, dst, false, 0);
  }

  lemma {:induction false} StaysUsed(
    v: AuthValue, header: Option<string>, s: string, end: End, writes: nat, dst: string, reused: bool, leg: nat)
    requires leg <= MAX_LEGS && (!reused || leg > 0 || (writes != 0 && s != ""))
    ensures !IsStale(Conversation(v, header, s, end, writes, dst, reused, leg).result)
    decreases MAX_LEGS - leg
  {
    hide LegResponse, ConnectRequest, Answered;
    if leg < MAX_LEGS && writes > 0 {
      match LegResponse(s, end)
      case Challenged(headers, next) =>
        var (v', answer) := Answered(v, headers);
        if answer.Ok? {
          StaysUsed(v', Some(answer.value), next, end, writes - 1, dst, reused, leg + 1);
        }
      case _ =>
    }
  }

  // ---------- The leg bound ----------

  /** Each 407 that is answered uses up one of the driver's answers, so the loop's own limit is never
      what ends it. */
  lemma {:induction false} LegsAreBounded(
    v: AuthValue, header: Option<string>, s: string, end: End, writes: nat, dst: string, reused: bool, leg: nat)
    requires leg + AnswerBound(v) < MAX_LEGS
    ensures var talk := Conversation(v, header, s, end, writes, dst, reused, leg);
            1 <= |talk.sent| <= AnswerBound(v) + 1 && talk.result != Err(Failed(ExhaustedLegs))
    decreases MAX_LEGS - leg
  {
    hide LegResponse, ConnectRequest, Answered;
    if writes > 0 {
      LegDoesNotExhaust(s, end);
      match LegResponse(s, end)
      case Challenged(headers, next) =>
        var (v', answer) := Answered(v, headers);
        AnswerUsesBound(v, headers);
        if answer.Ok? {
          LegsAreBounded(v', Some(answer.value), next, end, writes - 1, dst, reused, leg + 1);
        }
      case _ =>
    }
  }

  lemma LegDoesNotExhaust(s: string, end: End)
    ensures LegResponse(s, end).Stopped? ==> LegResponse(s, end).reason != ExhaustedLegs
  {
    hide HeadRead, BodyDrained;
  }

  /** Most requests that one socket can be sent. */
  function RequestLimit(mode: AuthMode): nat {
    if mode.NegotiateAuth? then 11 else 1
  }

  /** For every authenticator and every upstream: one request without authentication or with Basic,
      at most eleven with Negotiate, and never the "exhausted legs" exit. */
  lemma RequestsPerSocket(mode: AuthMode, s: string, end: End, writes: nat, dst: string, reused: bool)
    ensures var talk := HandshakeTalk(mode, s, end, writes, dst, reused);
            1 <= |talk.sent| <= RequestLimit(mode) && talk.result != Err(Failed(ExhaustedLegs))
  {
    hide Conversation;
    var (v, header) := Opened(NewState(mode));
    LegsAreBounded(v, header, s, end, writes, dst, reused, 0);
  }

  /** One `CONNECT` writes at most twelve requests in all: a second socket is used only after the
      first took one request and answered nothing. */
  lemma RequestsPerConnect(mode: AuthMode, s: string, end: End, writes: nat,
                           s': string, end': End, writes': nat, dst: string)
    ensures var first := HandshakeTalk(mode, s, end, writes, dst, true);
            var second := HandshakeTalk(mode, s', end', writes', dst, false);
            |first.sent| + (if IsStale(first.result) then |second.sent| else 0) <= 12
  {
    hide HandshakeTalk;
    StaleMeansUnanswered(mode, s, end, writes, dst);
    RequestsPerSocket(mode, s, end, writes, dst, true);
    RequestsPerSocket(mode, s', end', writes', dst, false);
  }

  // ---------- What is sent ----------

  /** The requests of a run: the opening one, then one for each answer. */
  function Requests(dst: string, header: Option<string>, answers: seq<string>): (r: seq<string>)
    ensures |r| == |answers| + 1
    decreases |answers|
  {
    [ConnectRequest(dst, header)]
    + if answers == [] then [] else Requests(dst, Some(answers[0]), answers[1..])
  }

  lemma RequestsStep(v: AuthValue, headers: Headers, later: seq<Headers>, dst: string, header: Option<string>)
    requires Answered(v, headers).1.Ok? && Answers(Answered(v, headers).0, later).Some?
    ensures var value := Answered(v, headers).1.value;
            var answers := Answers(Answered(v, headers).0, later).value;
            Answers(v, [headers] + later) == Some([value] + answers)
            && Requests(dst, header, [value] + answers)
            == [ConnectRequest(dst, header)] + Requests(dst, Some(value), answers)
  {
    hide Answered, ConnectRequest;
    var run := [headers] + later;
    assert run[0] == headers && run[1..] == later;
    var answers := [Answered(v, headers).1.value] + Answers(Answered(v, headers).0, later).value;
    assert answers[1..] == Answers(Answered(v, headers).0, later).value;
  }

  /** The requests are the opening one and the driver's answers to the 407s met, each in its turn;
      every 407 met is answered except possibly the last. */
  ghost predicate SendsAnswers(talk: Talk, v: AuthValue, dst: string, header: Option<string>) {
    1 <= |talk.sent| <= |talk.met| + 1 && |talk.met| <= |talk.sent|
    && var answered := talk.met[..|talk.sent| - 1];
       Answers(v, answered).Some? && talk.sent == Requests(dst, header, Answers(v, answered).value)
  }

  lemma SendsOne(talk: Talk, v: AuthValue, dst: string, header: Option<string>)
    requires talk.sent == [ConnectRequest(dst, header)] && |talk.met| <= 1
    ensures SendsAnswers(talk, v, dst, header)
  {
    assert talk.met[..0] == [];
  }

  lemma SendsMore(rest: Talk, v: AuthValue, headers: Headers, dst: string, header: Option<string>)
    requires Answered(v, headers).1.Ok?
    requires SendsAnswers(rest, Answered(v, headers).0, dst, Some(Answered(v, headers).1.value))
    ensures SendsAnswers(rest.After([ConnectRequest(dst, header)], [headers]), v, dst, header)
  {
    hide Answered, Answers, Requests, ConnectRequest;
    var talk := rest.After([ConnectRequest(dst, header)], [headers]);
    var later := rest.met[..|rest.sent| - 1];
    assert talk.met[..|talk.sent| - 1] == [headers] + later;
    RequestsStep(v, headers, later, dst, header);
  }

  /** Over any upstream, what a conversation writes is exactly the driver's answers. */
  lemma {:induction false} RequestsAreAnswers(
    v: AuthValue, header: Option<string>, s: string, end: End, writes: nat, dst: string, reused: bool, leg: nat)
    requires leg + AnswerBound(v) < MAX_LEGS
    ensures SendsAnswers(Conversation(v, header, s, end, writes, dst, reused, leg), v, dst, header)
    decreases MAX_LEGS - leg
  {
    hide LegResponse, ConnectRequest, Answered, SendsAnswers;
    var talk := Conversation(v, header, s, end, writes, dst, reused, leg);
    if writes > 0 && !(reused && leg == 0 && s == "") && LegResponse(s, end).Challenged? {
      var Challenged(headers, next) := LegResponse(s, end);
      var (v', answer) := Answered(v, headers);
      AnswerUsesBound(v, headers);
      if answer.Ok? {
        var rest := Conversation(v', Some(answer.value), next, end, writes - 1, dst, reused, leg + 1);
        RequestsAreAnswers(v', Some(answer.value), next, end, writes - 1, dst, reused, leg + 1);
        SendsMore(rest, v, headers, dst, header);
        assert talk == rest.After([ConnectRequest(dst, header)], [headers]);
      } else {
        SendsOne(talk, v, dst, header);
      }
    } else {
      SendsOne(talk, v, dst, header);
    }
  }

  /** The requests after the first carry one keyword, fixed by the first 407, and the tokens of the
      authenticator's steps, step k being fed the challenge of the k-th 407. */
  ghost predicate CarriesTokens(sent: seq<string>, answered: seq<Headers>, auth: Authenticator, dst: string) {
    answered != [] ==>
      var offered := OfferIn(answered[0]).Scheme();
      (offered.Some? || Challenges(answered[0]) == [])
      && Answerable(auth, Fed(answered), 0)
      && exists answers ::
           sent == Requests(dst, None, answers)
           && AreTokens(answers, auth, if offered.Some? then offered.value else Negotiate, Fed(answered), 0)
  }

  /** In Negotiate mode, over every upstream and every authenticator: the first request carries no
      value, the others carry the authenticator's tokens under the keyword that the first 407
      fixed, and every authenticator step after the first is fed a challenge. */
  lemma NegotiateRequests(auth: Authenticator, s: string, end: End, writes: nat, dst: string, reused: bool)
    ensures var talk := HandshakeTalk(NegotiateAuth(auth), s, end, writes, dst, reused);
            1 <= |talk.sent| <= |talk.met| + 1
            && talk.sent[0] == ConnectRequest(dst, None)
            && CarriesTokens(talk.sent, talk.met[..|talk.sent| - 1], auth, dst)
  {
    hide Conversation, OfferIn, Challenges, Fed, Answers, ConnectRequest, Answerable, AreTokens;
    var v := NewState(NegotiateAuth(auth));
    var talk := HandshakeTalk(NegotiateAuth(auth), s, end, writes, dst, reused);
    RequestsAreAnswers(v, None, s, end, writes, dst, reused, 0);
    var answered := talk.met[..|talk.sent| - 1];
    if answered != [] {
      NegotiateRun(auth, answered);
      var answers := Answers(v, answered).value;
      assert talk.sent == Requests(dst, None, answers);
    }
  }

  /** The first request: with Basic a gateway reads the configured credentials from it, and otherwise no
      credentials at all. */
  lemma OpeningCredentials(mode: AuthMode, s: string, end: End, writes: nat, dst: string, reused: bool)
    requires IsLineText(dst) && (mode.BasicAuth? ==> IsLineText(mode.credentials))
    ensures var sent := HandshakeTalk(mode, s, end, writes, dst, reused).sent;
            sent != []
            && CredentialsIn(sent[0]) == if mode.BasicAuth? then Some(Trim(mode.credentials)) else None
  {
    hide Conversation, ConnectRequest, CredentialsIn, Requests, Trim;
    var (v, header) := Opened(NewState(mode));
    RequestsAreAnswers(v, header, s, end, writes, dst, reused, 0);
    var talk := HandshakeTalk(mode, s, end, writes, dst, reused);
    RequestsStart(dst, header, Answers(v, talk.met[..|talk.sent| - 1]).value);
    CredentialsAreRead(dst, header);
  }

  lemma RequestsStart(dst: string, header: Option<string>, answers: seq<string>)
    ensures Requests(dst, header, answers)[0] == ConnectRequest(dst, header)
  {
    hide ConnectRequest;
  }

  // ---------- Framing stays synchronised across legs ----------

  function ResponsesText(rs: seq<Framing.Response>): string {
    if rs == [] then "" else Framing.ResponseText(rs[0]) + ResponsesText(rs[1..])
  }

  function Reports(rs: seq<Framing.Response>): (r: seq<Headers>)
    ensures |r| == |rs|
  {
    if rs == [] then [] else [Framing.Reported(Framing.Fields(rs[0]))] + Reports(rs[1..])
  }

  predicate AreChallenges(rs: seq<Framing.Response>) {
    forall i | 0 <= i < |rs| :: Framing.WellFramed(rs[i]) && rs[i].status == PROXY_AUTH_REQUIRED
  }

  /** A 407 with one framing is read as itself; its trailer fields after the first are left. */
  lemma ChallengeIsRead(r: Framing.Response, rest: string, end: End)
    requires Framing.Framed(r) && r.status == PROXY_AUTH_REQUIRED
    ensures LegResponse(Framing.ResponseText(r) + rest, end)
         == Challenged(Framing.Reported(Framing.Fields(r)), Framing.Leftover(r.body) + rest)
    ensures Framing.ResponseText(r) + rest != ""
  {
    hide HeadRead, BodyDrained, Framing.HeadText, Framing.BodyText, Framing.Leftover;
    Framing.ResponseIsConsumed(r, rest, end);
    HeadIsNotEmpty(r);
  }

  lemma HeadIsNotEmpty(r: Framing.Response)
    ensures Framing.HeadText(r) != ""
  {
    Framing.EndsWithBlankLine(Framing.HeadLines(r));
  }

  lemma GrantIsRead(grant: Framing.Response, tunnel: string, end: End)
    requires Framing.ValidHead(grant) && grant.status == OK_STATUS
    ensures LegResponse(Framing.HeadText(grant) + tunnel, end) == Granted(tunnel)
    ensures Framing.HeadText(grant) + tunnel != ""
  {
    hide HeadRead, BodyDrained, Framing.HeadText;
    Framing.HeadIsRead(grant, tunnel, end);
    HeadIsNotEmpty(grant);
  }

  /** The value sent with the last request of a run. */
  function LastValue(header: Option<string>, answers: seq<string>): Option<string> {
    if answers == [] then header else Some(answers[|answers| - 1])
  }

  lemma {:induction false} RequestsEnd(dst: string, header: Option<string>, answers: seq<string>)
    ensures Requests(dst, header, answers)
         == Requests(dst, header, answers)[..|answers|] + [ConnectRequest(dst, LastValue(header, answers))]
    decreases |answers|
  {
    hide ConnectRequest;
    if answers != [] {
      RequestsEnd(dst, Some(answers[0]), answers[1..]);
    }
  }

  /** Any run of well-framed 407s that the driver answers, whatever follows them: leg k reads exactly the
      k-th response, the requests are the answers, and the conversation goes on with exactly what
      follows. */
  lemma {:induction false} LegsStaySynchronised(
    rs: seq<Framing.Response>, rest: string,
    v: AuthValue, header: Option<string>, end: End, writes: nat, dst: string, reused: bool, leg: nat)
    requires AreChallenges(rs) && Answers(v, Reports(rs)).Some?
    requires leg + |rs| <= MAX_LEGS && writes >= |rs|
    ensures var answers := Answers(v, Reports(rs)).value;
            Conversation(v, header, ResponsesText(rs) + rest, end, writes, dst, reused, leg)
            == Conversation(After(v, Reports(rs)), LastValue(header, answers), rest, end, writes - |rs|, dst,
                            reused, leg + |rs|)
                 .After(Requests(dst, header, answers)[..|rs|], Reports(rs))
    decreases |rs|
  {
    hide Conversation, LegResponse, ConnectRequest, Answered, Framing.ResponseText, Framing.Reported, Framing.Framed,
      Requests, AreChallenges;
    if rs == [] {
      assert ResponsesText(rs) + rest == rest;
      AfterNothing(Conversation(v, header, rest, end, writes, dst, reused, leg));
    } else {
      var s, next := ResponsesText(rs) + rest, ResponsesText(rs[1..]) + rest;
      var headers := Framing.Reported(Framing.Fields(rs[0]));
      var (v', answer) := Answered(v, headers);
      FirstChallenge(rs, next, end);
      assert s == Framing.ResponseText(rs[0]) + next;
      assert Reports(rs) == [headers] + Reports(rs[1..]) && Reports(rs)[1..] == Reports(rs[1..]);
      AnsweredLeg(v, header, s, end, writes, dst, reused, leg);
      LegsStaySynchronised(rs[1..], rest, v', Some(answer.value), end, writes - 1, dst, reused, leg + 1);
      RequestsStep(v, headers, Reports(rs[1..]), dst, header);
      var later := Answers(v', Reports(rs[1..])).value;
      JoinLegs(Conversation(After(v, Reports(rs)), LastValue(header, [answer.value] + later), rest, end,
                            writes - |rs|, dst, reused, leg + |rs|),
               ConnectRequest(dst, header), Requests(dst, Some(answer.value), later), headers, Reports(rs[1..]));
    }
  }

  lemma FirstChallenge(rs: seq<Framing.Response>, next: string, end: End)
    requires AreChallenges(rs) && rs != []
    ensures LegResponse(Framing.ResponseText(rs[0]) + next, end)
         == Challenged(Framing.Reported(Framing.Fields(rs[0])), next)
    ensures Framing.ResponseText(rs[0]) + next != "" && AreChallenges(rs[1..])
  {
    hide LegResponse, Framing.Framed, Framing.ResponseText;
    assert Framing.WellFramed(rs[0]) && rs[0].status == PROXY_AUTH_REQUIRED;
    ChallengeIsRead(rs[0], next, end);
    assert Framing.Leftover(rs[0].body) + next == next;
  }

  lemma JoinLegs(t: Talk, request: string, requests: seq<string>, headers: Headers, met: seq<Headers>)
    requires |requests| == |met| + 1
    ensures t.After(requests[..|met|], met).After([request], [headers])
         == t.After(([request] + requests)[..|met| + 1], [headers] + met)
  {
    AfterTwice(t, requests[..|met|], met, [request], [headers]);
    assert [request] + requests[..|met|] == ([request] + requests)[..|met| + 1];
  }

  lemma GrantedLeg(v: AuthValue, header: Option<string>, s: string, end: End, writes: nat, dst: string,
                   reused: bool, leg: nat)
    requires leg < MAX_LEGS && writes > 0 && s != "" && LegResponse(s, end).Granted?
    ensures Conversation(v, header, s, end, writes, dst, reused, leg)
         == Talk(Ok(()), LegResponse(s, end).tunnel, [ConnectRequest(dst, header)], [])
  {
    hide LegResponse, ConnectRequest, Answered;
  }

  lemma AnsweredLeg(v: AuthValue, header: Option<string>, s: string, end: End, writes: nat, dst: string,
                    reused: bool, leg: nat)
    requires leg < MAX_LEGS && writes > 0 && s != "" && LegResponse(s, end).Challenged?
    requires Answered(v, LegResponse(s, end).headers).1.Ok?
    ensures var Challenged(headers, next) := LegResponse(s, end);
            var (v', answer) := Answered(v, headers);
            Conversation(v, header, s, end, writes, dst, reused, leg)
            == Conversation(v', Some(answer.value), next, end, writes - 1, dst, reused, leg + 1)
                 .After([ConnectRequest(dst, header)], [headers])
  {
    hide LegResponse, ConnectRequest, Answered;
  }

  /** For a whole handshake, in every authentication mode: after any run of well-framed 407s that the
      driver answers, a grant and arbitrary tunnel bytes, the requests are exactly the answers and
      the bytes left unread are exactly the tunnel's. No bound on the run is needed, since a
      driver that answers it keeps it short enough. */
  lemma TunnelIsReached(
    rs: seq<Framing.Response>, grant: Framing.Response, tunnel: string,
    mode: AuthMode, end: End, writes: nat, dst: string, reused: bool)
    requires AreChallenges(rs) && Framing.ValidHead(grant) && grant.status == OK_STATUS
    requires Answers(Opened(NewState(mode)).0, Reports(rs)).Some? && writes > |rs|
    ensures HandshakeTalk(mode, ResponsesText(rs) + (Framing.HeadText(grant) + tunnel), end, writes, dst, reused)
         == Talk(Ok(()), tunnel,
                 Requests(dst, Opened(NewState(mode)).1, Answers(Opened(NewState(mode)).0, Reports(rs)).value),
                 Reports(rs))
  {
    hide Conversation, Answered, LegResponse, ConnectRequest, Requests, Framing.HeadText, Framing.ValidHead, Answers;
    var (v, header) := Opened(NewState(mode));
    var answers, granted := Answers(v, Reports(rs)).value, Framing.HeadText(grant) + tunnel;
    AnswersAreBounded(v, Reports(rs));
    GrantIsRead(grant, tunnel, end);
    LegsStaySynchronised(rs, granted, v, header, end, writes, dst, reused, 0);
    GrantedLeg(After(v, Reports(rs)), LastValue(header, answers), granted, end, writes - |rs|, dst, reused, |rs|);
    RequestsEnd(dst, header, answers);
    assert Reports(rs) + [] == Reports(rs);
  }

  /** If the driver does not answer every 407 of the run, whatever follows is never reached. */
  lemma {:induction false} UnansweredRunFails(
    rs: seq<Framing.Response>, rest: string,
    v: AuthValue, header: Option<string>, end: End, writes: nat, dst: string, reused: bool, leg: nat)
    requires leg <= MAX_LEGS && AreChallenges(rs) && Answers(v, Reports(rs)).None?
    ensures Conversation(v, header, ResponsesText(rs) + rest, end, writes, dst, reused, leg).result.Err?
    decreases |rs|
  {
    hide LegResponse, ConnectRequest, Answered, Framing.ResponseText, Framing.Reported, AreChallenges;
    var next := ResponsesText(rs[1..]) + rest;
    FirstChallenge(rs, next, end);
    assert ResponsesText(rs) + rest == Framing.ResponseText(rs[0]) + next;
    var headers := Framing.Reported(Framing.Fields(rs[0]));
    assert Reports(rs)[0] == headers && Reports(rs)[1..] == Reports(rs[1..]);
    if leg < MAX_LEGS && writes > 0 && Answered(v, headers).1.Ok? {
      var (v', answer) := Answered(v, headers);
      UnansweredRunFails(rs[1..], rest, v', Some(answer.value), end, writes - 1, dst, reused, leg + 1);
    }
  }

  lemma UnansweredHandshakeFails(
    rs: seq<Framing.Response>, rest: string, mode: AuthMode, end: End, writes: nat, dst: string, reused: bool)
    requires AreChallenges(rs) && Answers(Opened(NewState(mode)).0, Reports(rs)).None?
    ensures HandshakeTalk(mode, ResponsesText(rs) + rest, end, writes, dst, reused).result.Err?
  {
    hide Conversation, AreChallenges, Answers, Reports, ResponsesText;
    var (v, header) := Opened(NewState(mode));
    UnansweredRunFails(rs, rest, v, header, end, writes, dst, reused, 0);
  }

  // ---------- Where framing is lost ----------

  /** The next head starts at the first line that is left, and takes its status from it. */
  lemma LeftLineGivesStatus(line: string, more: string, end: End)
    requires CR !in line
    ensures var head := HeadRead(line + CRLF + more, end);
            head.result.Ok? ==> head.result.value.0 == StatusOfLine(line)
  {
    var s := line + CRLF + more;
    FindIsLeftmost(s, END_OF_HEAD);
    var end' := Terminated(s, END_OF_HEAD);
    if end'.Some? {
      var n := end'.value;
      assert OccursAt(s, END_OF_HEAD, n - 4);
      assert s[n - 4] == s[n - 4..][0] == CR;
      assert forall i | 0 <= i < |line| :: s[i] == line[i];
      assert n - 4 >= |line|;
      assert s[..n] == line + CRLF + s[|line| + 2..n];
      SplitLinesAt(line, s[|line| + 2..n]);
    }
  }

  /** So only a line that reads as a status of 200 or 407 keeps the loop from stopping there. */
  lemma LeftLineEndsTheLegs(line: string, more: string, end: End)
    requires CR !in line
    ensures var leg := LegResponse(line + CRLF + more, end);
            (leg.Granted? <==> HeadRead(line + CRLF + more, end).result.Ok? && StatusOfLine(line) == OK_STATUS)
            && (leg.Challenged? ==> StatusOfLine(line) == PROXY_AUTH_REQUIRED)
  {
    hide HeadRead, BodyDrained, StatusOfLine;
    LeftLineGivesStatus(line, more, end);
  }

  lemma BlankLineHasNoStatus()
    ensures StatusOfLine("") == 0
  {
    NoWords();
    hide FirstWord, AfterFirstWord;
    assert ParseUnsigned("", 10, MAX_U16) == None;
  }

  lemma NoWords()
    ensures AfterFirstWord("") == "" && FirstWord("") == ""
  {
  }

  /** The line at which the drain of a body with trailer fields leaves the stream. */
  function LeftLine(body: Framing.Body): string
    requires !Framing.HasNoTrailers(body)
  {
    if |body.trailers| == 1 then "" else body.trailers[1]
  }

  lemma LeftoverStarts(body: Framing.Body, rest: string) returns (more: string)
    requires !Framing.HasNoTrailers(body)
    ensures Framing.Leftover(body) + rest == LeftLine(body) + CRLF + more
  {
    var ts := body.trailers;
    if |ts| == 1 {
      more := rest;
      assert ts[1..] == [];
      assert Framing.Leftover(body) + rest == "" + CRLF + rest;
    } else {
      more := Framing.Lines(ts[2..]) + rest;
      assert ts[1..][1..] == ts[2..];
      assert Framing.Lines(ts[1..]) == ts[1] + CRLF + Framing.Lines(ts[2..]);
      assert Framing.Leftover(body) + rest == LeftLine(body) + CRLF + more;
    }
  }

  /** A 407 with trailer fields, anywhere in a run of 407s, ends the handshake without a tunnel: the next
      head starts with its second trailer, or with the empty line after its only one, unless that
      line happens to read as a status of 200 or 407. This holds for every driver and whatever the
      upstream sends afterwards. */
  lemma {:induction false} TrailersEndTheHandshake(
    rs: seq<Framing.Response>, r: Framing.Response, rest: string,
    v: AuthValue, header: Option<string>, end: End, writes: nat, dst: string, reused: bool, leg: nat)
    requires leg <= MAX_LEGS && AreChallenges(rs)
    requires Framing.Framed(r) && r.status == PROXY_AUTH_REQUIRED && !Framing.HasNoTrailers(r.body)
    requires StatusOfLine(LeftLine(r.body)) != OK_STATUS && StatusOfLine(LeftLine(r.body)) != PROXY_AUTH_REQUIRED
    ensures Conversation(v, header, ResponsesText(rs) + (Framing.ResponseText(r) + rest), end, writes, dst,
                         reused, leg).result.Err?
    decreases |rs|
  {
    hide LegResponse, ConnectRequest, Answered, StatusOfLine, Framing.ResponseText, Framing.Framed, AreChallenges,
      LeftLine, Framing.Leftover, Framing.HasNoTrailers;
    var tail := Framing.ResponseText(r) + rest;
    var s := ResponsesText(rs) + tail;
    if rs == [] {
      assert s == tail;
      var next := Framing.Leftover(r.body) + rest;
      ChallengeIsRead(r, rest, end);
      var more := LeftoverStarts(r.body, rest);
      LeftLineIsText(r);
      LeftLineEndsTheLegs(LeftLine(r.body), more, end);
      StoppedAfter(v, header, s, end, writes, dst, reused, leg);
    } else {
      var next := ResponsesText(rs[1..]) + tail;
      assert s == Framing.ResponseText(rs[0]) + next;
      FirstChallenge(rs, next, end);
      if leg < MAX_LEGS && writes > 0 {
        var (v', answer) := Answered(v, Framing.Reported(Framing.Fields(rs[0])));
        if answer.Ok? {
          TrailersEndTheHandshake(rs[1..], r, rest, v', Some(answer.value), end, writes - 1, dst, reused, leg + 1);
        }
      }
    }
  }

  /** In particular one trailer field is always enough. */
  lemma OneTrailerEndsTheHandshake(
    rs: seq<Framing.Response>, r: Framing.Response, rest: string,
    mode: AuthMode, end: End, writes: nat, dst: string, reused: bool)
    requires AreChallenges(rs) && Framing.Framed(r) && r.status == PROXY_AUTH_REQUIRED
    requires r.body.Chunked? && |r.body.trailers| == 1
    ensures HandshakeTalk(mode, ResponsesText(rs) + (Framing.ResponseText(r) + rest), end, writes, dst, reused)
              .result.Err?
  {
    hide Conversation, Framing.Framed, Framing.ResponseText;
    var (v, header) := Opened(NewState(mode));
    BlankLineHasNoStatus();
    TrailersEndTheHandshake(rs, r, rest, v, header, end, writes, dst, reused, 0);
  }

  /** And a declared length of 0 beside one chunk: the next response is refused, with a status of 0. */
  lemma ChunkBesideLengthIsRefused(head: Framing.Response, end: End, rest: string)
    requires Framing.ValidHead(head) && head.status == PROXY_AUTH_REQUIRED
    requires Framing.Reported(Framing.Fields(head)) == [("content-length", "0"), ("transfer-encoding", "chunked")]
    ensures var sent := Framing.HeadText(head) + ("1\r\na\r\n0\r\n\r\n" + rest);
            LegResponse(sent, end).Challenged?
            && LegResponse(LegResponse(sent, end).next, end) == Stopped(Refused(0), rest)
  {
    hide HeadRead, BodyDrained, Framing.ValidHead, Framing.HeadText, Framing.Reported;
    var body := "1\r\na\r\n0\r\n\r\n";
    Framing.HeadIsRead(head, body + rest, end);
    Framing.ChunkIsTakenForAHead(end, rest);
    NothingToDrain(rest, end);
  }

  lemma NothingToDrain(s: string, end: End)
    ensures BodyDrained(s, end, []) == Read(Ok(()), s)
  {
  }

  lemma LeftLineIsText(r: Framing.Response)
    requires Framing.Framed(r) && !Framing.HasNoTrailers(r.body)
    ensures CR !in LeftLine(r.body)
  {
  }

  /** A 407 after which the next response stops the loop. */
  lemma StoppedAfter(v: AuthValue, header: Option<string>, s: string, end: End, writes: nat, dst: string,
                     reused: bool, leg: nat)
    requires leg <= MAX_LEGS && LegResponse(s, end).Challenged?
    requires LegResponse(LegResponse(s, end).next, end).Stopped?
    ensures Conversation(v, header, s, end, writes, dst, reused, leg).result.Err?
  {
    hide LegResponse, ConnectRequest, Answered;
  }

  // ---------- The same loop for plain HTTP requests ----------

  /** What one leg of a forwarded request yields: a transport failure, or a status with its fields and
      whether its body could be drained. */
  datatype ForwardLeg = LegFailed | LegResponded(status: nat, headers: Headers, drains: bool)

  datatype ForwardFailure = ForwardBroken | ForwardAuth(failure: AuthFailure) | ForwardExhausted

  predicate IsDrained407(leg: ForwardLeg) {
    leg.LegResponded? && leg.status == PROXY_AUTH_REQUIRED && leg.drains
  }

  /** The header fields of the first `n` legs, which are all 407s. */
  function Met(upstream: nat -> ForwardLeg, n: nat): (run: seq<Headers>)
    requires forall k: nat | k < n :: IsDrained407(upstream(k))
    ensures |run| == n
  {
    if n == 0 then []
    else
      assert IsDrained407(upstream(n - 1));
      Met(upstream, n - 1) + [upstream(n - 1).headers]
  }

  /** How a forwarded request ends on its last leg, `v` being the driver's state by then. */
  function ForwardEnd(v: AuthValue, leg: ForwardLeg): Result<nat, ForwardFailure> {
    match leg
    case LegFailed => Err(ForwardBroken)
    case LegResponded(status, headers, drains) =>
      if status != PROXY_AUTH_REQUIRED then Ok(status)
      else if !drains then Err(ForwardBroken)
      else
        match Answered(v, headers).1
        case Err(failure) => Err(ForwardAuth(failure))
        case Ok(_) => Err(ForwardExhausted)
  }

  /** The value of each leg: the opening one, then the answers. */
  function Values(header: Option<string>, answers: seq<string>): (r: seq<Option<string>>)
    ensures |r| == |answers| + 1 && r[0] == header
    ensures forall k | 0 <= k < |answers| :: r[k + 1] == Some(answers[k])
  {
    [header] + seq(|answers|, k requires 0 <= k < |answers| => Some(answers[k]))
  }

  /** Resends a request until the upstream, an arbitrary sequence of leg outcomes, answers with anything
      but a 407. All legs before the last are 407s that the driver answered; the values sent are the
      opening one and its answers; the last leg decides the result, which is never that the legs are
      exhausted. */
  method ForwardHandshake(mode: AuthMode, upstream: nat -> ForwardLeg)
    returns (r: Result<(nat, nat), ForwardFailure>, sent: seq<Option<string>>)
    ensures 1 <= |sent| <= RequestLimit(mode) && r != Err(ForwardExhausted)
    ensures forall k: nat | k < |sent| - 1 :: IsDrained407(upstream(k))
    ensures var (v, header) := Opened(NewState(mode));
            var run := Met(upstream, |sent| - 1);
            Answers(v, run).Some?
            && sent == Values(header, Answers(v, run).value)
            && match ForwardEnd(After(v, run), upstream(|sent| - 1))
               case Ok(status) => r == Ok((status, |sent|))
               case Err(failure) => r == Err(failure)
  {
    hide Answered, Answers, After, AnswerBound, Values, LastValue;
    var state := new AuthState(mode);
    ghost var v := Opened(NewState(mode)).0;
    ghost var answers: seq<string> := [];
    var header := state.InitialHeader();
    ghost var opening := header;
    sent := [];
    NothingAnswered(mode);
    FirstValue(opening);
    for leg := 0 to MAX_LEGS
      invariant state.Valid() && fresh(state) && (state.handshake != null ==> fresh(state.handshake))
      invariant forall k: nat | k < leg :: IsDrained407(upstream(k))
      invariant Answers(v, Met(upstream, leg)) == Some(answers) && |answers| == leg
      invariant After(v, Met(upstream, leg)) == state.Value()
      invariant leg + AnswerBound(state.Value()) < RequestLimit(mode)
      invariant header == LastValue(opening, answers)
      invariant sent + [header] == Values(opening, answers)
    {
      sent := sent + [header];
      match upstream(leg) {
        case LegFailed =>
          return Err(ForwardBroken), sent;
        case LegResponded(status, headers, drains) =>
          if status != PROXY_AUTH_REQUIRED {
            return Ok((status, |sent|)), sent;
          }
          if !drains {
            return Err(ForwardBroken), sent;
          }
          AnswerUsesBound(state.Value(), headers);
          AnswersOneMore(v, Met(upstream, leg), headers);
          var answer := state.OnChallenge(headers);
          if answer.Err? {
            return Err(ForwardAuth(answer.error)), sent;
          }
          header := Some(answer.value);
          OneMoreValue(opening, answers, answer.value);
          answers := answers + [answer.value];
      }
    }
    return Err(ForwardExhausted), sent;
  }

  lemma FirstValue(opening: Option<string>)
    ensures Values(opening, []) == [opening] == [] + [opening] && LastValue(opening, []) == opening
  {
  }

  lemma OneMoreValue(opening: Option<string>, answers: seq<string>, value: string)
    ensures Values(opening, answers + [value]) == Values(opening, answers) + [Some(value)]
    ensures LastValue(opening, answers + [value]) == Some(value)
  {
  }

  lemma NothingAnswered(mode: AuthMode)
    ensures var v := Opened(NewState(mode)).0;
            Answers(v, []) == Some([]) && After(v, []) == v && AnswerBound(v) < RequestLimit(mode)
  {
  }
}

/** The grammar of `Proxy-Authenticate` (sections 11.3 and 11.7.1 of RFC 9110) as a printer, and
    the proof that the challenge reader inverts it. */
module ChallengePrinter {
  import opened Results
  import opened Text
  import opened Base64
  import opened AuthHeader
  import opened Handshake
  import opened UpstreamAuth

  datatype Credentials =
    | Bare
    | Token68(token: string)
    | Params(first: (string, string), others: seq<(string, string)>)

  datatype Printed = Printed(scheme: string, credentials: Credentials)

  /** What surrounds one element of a list: empty elements before it, and its own white space. */
  datatype Spacing = Spacing(blanks: seq<string>, before: string, after: string)

  /** One header field: a list of challenges, spaced in any way, or any other field. */
  datatype Field =
    | ChallengeField(challenges: seq<Printed>, spacing: seq<Spacing>, trailing: seq<string>)
    | OtherField(name: string, text: string)

  predicate ValidParam(p: (string, string)) {
    IsToken(p.0) && ',' !in p.1 && Trimmed(p.1)
  }

  /** The reader knows nothing of commas inside quoted strings or of spaces around `=`. */
  predicate ValidPrinted(c: Printed) {
    IsToken(c.scheme)
    && match c.credentials
       case Bare => true
       case Token68(token) => token != "" && ',' !in token && Trimmed(token)
       case Params(first, others) => ValidParam(first) && forall i | 0 <= i < |others| :: ValidParam(others[i])
  }

  predicate AreBlank(elements: seq<string>) {
    forall i | 0 <= i < |elements| :: AllSpace(elements[i])
  }

  predicate ValidSpacing(p: Spacing) {
    AreBlank(p.blanks) && AllSpace(p.before) && AllSpace(p.after)
  }

  /** Each element of the list has its own spacing. */
  predicate ValidField(f: Field) {
    match f
    case ChallengeField(challenges, spacing, trailing) =>
      (forall i | 0 <= i < |challenges| :: ValidPrinted(challenges[i]))
      && |spacing| == |AllPieces(challenges)| && (forall i | 0 <= i < |spacing| :: ValidSpacing(spacing[i]))
      && AreBlank(trailing)
    case OtherField(name, _) => name != PROXY_AUTHENTICATE
  }

  predicate ValidFields(fields: seq<Field>) {
    forall i | 0 <= i < |fields| :: ValidField(fields[i])
  }

  // ---------- Printing ----------

  function ParamText(p: (string, string)): string {
    p.0 + "=" + p.1
  }

  /** The credentials that share a comma-separated piece with the scheme. */
  function Leading(c: Credentials): string {
    match c
    case Bare => ""
    case Token68(token) => token
    case Params(first, _) => ParamText(first)
  }

  function Head(c: Printed): string {
    if c.credentials.Bare? then c.scheme else c.scheme + " " + Leading(c.credentials)
  }

  function ParamTexts(ps: seq<(string, string)>): seq<string> {
    if ps == [] then [] else [ParamText(ps[0])] + ParamTexts(ps[1..])
  }

  /** A challenge is its head piece followed by one piece for each further parameter. */
  function Pieces(c: Printed): seq<string> {
    [Head(c)] + if c.credentials.Params? then ParamTexts(c.credentials.others) else []
  }

  function AllPieces(cs: seq<Printed>): seq<string> {
    if cs == [] then [] else Pieces(cs[0]) + AllPieces(cs[1..])
  }

  /** The elements of a list: the pieces in their spacing, and empty elements anywhere. */
  function Elements(pieces: seq<string>, spacing: seq<Spacing>, trailing: seq<string>): seq<string>
    requires |spacing| == |pieces|
  {
    if pieces == [] then trailing
    else
      spacing[0].blanks + [spacing[0].before + pieces[0] + spacing[0].after]
      + Elements(pieces[1..], spacing[1..], trailing)
  }

  function JoinCommas(elements: seq<string>): string {
    if elements == [] then ""
    else if |elements| == 1 then elements[0]
    else elements[0] + "," + JoinCommas(elements[1..])
  }

  function PrintField(f: Field): (string, string)
    requires ValidField(f)
  {
    match f
    case ChallengeField(challenges, spacing, trailing) =>
      (PROXY_AUTHENTICATE, JoinCommas(Elements(AllPieces(challenges), spacing, trailing)))
    case OtherField(name, text) => (name, text)
  }

  function PrintFields(fields: seq<Field>): Headers
    requires ValidFields(fields)
  {
    if fields == [] then []
    else
      assert ValidField(fields[0]);
      [PrintField(fields[0])] + PrintFields(fields[1..])
  }

  // ---------- What the reader should find ----------

  function Heads(cs: seq<Printed>): seq<string> {
    if cs == [] then [] else [Head(cs[0])] + Heads(cs[1..])
  }

  function AllChallenges(fields: seq<Field>): seq<Printed> {
    if fields == [] then []
    else (if fields[0].ChallengeField? then fields[0].challenges else []) + AllChallenges(fields[1..])
  }

  /** The offer of the first challenge whose scheme is Negotiate or NTLM. */
  function FirstUsable(cs: seq<Printed>): NegotiateOffer {
    if cs == [] then NotOffered
    else if SchemeNamed(cs[0].scheme).Some? then OfferOf(cs[0].scheme, Leading(cs[0].credentials))
    else FirstUsable(cs[1..])
  }

  // ---------- Reading one piece ----------

  predicate CleanPiece(piece: string) {
    ',' !in piece && Trimmed(piece)
  }

  lemma TokenCharacters(s: string)
    requires IsToken(s)
    ensures NoSpace(s) && ',' !in s && '=' !in s && Trimmed(s)
  {
    assert forall c | IsTchar(c) :: !IsSpace(c) && c != ',' && c != '=';
  }

  lemma LeadingIsClean(c: Printed)
    requires ValidPrinted(c)
    ensures CleanPiece(Leading(c.credentials))
  {
    if c.credentials.Params? {
      TokenCharacters(c.credentials.first.0);
    }
  }

  lemma HeadIsClean(scheme: string, leading: string)
    requires IsToken(scheme) && CleanPiece(leading) && leading != ""
    ensures CleanPiece(scheme + " " + leading)
  {
    TokenCharacters(scheme);
  }

  lemma HeadStarts(c: Printed)
    requires ValidPrinted(c)
    ensures CleanPiece(Head(c)) && StartingPiece(Head(c)) == [Head(c)]
  {
    TokenStarts(c.scheme, "");
    if c.credentials.Bare? {
      assert c.scheme + "" == c.scheme;
    } else {
      var leading := Leading(c.credentials);
      LeadingIsClean(c);
      HeadIsClean(c.scheme, leading);
      TokenStarts(c.scheme, " " + leading);
      assert c.scheme + (" " + leading) == Head(c);
    }
  }

  lemma TokenStarts(word: string, rest: string)
    requires IsToken(word) && (rest == "" || IsSpace(rest[0]))
    ensures StartingPiece(word + rest) == [word + rest] && CleanPiece(word)
  {
    TokenCharacters(word);
    FirstWordOf(word, rest);
  }

  lemma HeadIsParsed(c: Printed)
    requires ValidPrinted(c)
    ensures ParseProxyAuthenticate(Head(c)) == OfferOf(c.scheme, Leading(c.credentials))
  {
    LeadingIsClean(c);
    TokenCharacters(c.scheme);
    if c.credentials.Bare? {
      ParseWord(c.scheme);
    } else {
      ParseCredentials(c.scheme, Leading(c.credentials));
    }
  }

  lemma ParamDoesNotStart(p: (string, string))
    requires ValidParam(p)
    ensures CleanPiece(ParamText(p)) && StartingPiece(ParamText(p)) == []
  {
    TokenCharacters(p.0);
    var text := ParamText(p);
    var name := p.0 + "=";
    assert text == name + p.1 && text[0] == p.0[0];
    WordLengthAtLeast(name, p.1);
    assert FirstWord(text)[|p.0|] == '=';
  }

  lemma {:induction false} WordLengthAtLeast(word: string, rest: string)
    requires NoSpace(word)
    ensures WordLength(word + rest) >= |word|
  {
    if word != "" {
      assert (word + rest)[1..] == word[1..] + rest;
      WordLengthAtLeast(word[1..], rest);
    }
  }

  lemma {:induction false} ParamsDoNotStart(ps: seq<(string, string)>)
    requires forall i | 0 <= i < |ps| :: ValidParam(ps[i])
    ensures forall i | 0 <= i < |ParamTexts(ps)| :: CleanPiece(ParamTexts(ps)[i])
    ensures Starting(ParamTexts(ps)) == []
  {
    if ps != [] {
      ParamDoesNotStart(ps[0]);
      ParamsDoNotStart(ps[1..]);
      assert ParamTexts(ps)[1..] == ParamTexts(ps[1..]);
    }
  }

  // ---------- Reading a list ----------

  /** The starting pieces among pieces that are already trimmed. */
  function Starting(pieces: seq<string>): seq<string> {
    if pieces == [] then [] else StartingPiece(pieces[0]) + Starting(pieces[1..])
  }

  lemma {:induction false} StartingConcat(a: seq<string>, b: seq<string>)
    ensures Starting(a + b) == Starting(a) + Starting(b)
  {
    if a == [] {
      assert a + b == b;
    } else {
      assert (a + b)[1..] == a[1..] + b;
      StartingConcat(a[1..], b);
    }
  }

  lemma {:induction false} PiecesOfAll(cs: seq<Printed>)
    requires forall i | 0 <= i < |cs| :: ValidPrinted(cs[i])
    ensures forall i | 0 <= i < |AllPieces(cs)| :: CleanPiece(AllPieces(cs)[i])
    ensures Starting(AllPieces(cs)) == Heads(cs)
  {
    if cs != [] {
      PiecesOfAll(cs[1..]);
      PiecesOfOne(cs[0]);
      StartingConcat(Pieces(cs[0]), AllPieces(cs[1..]));
    }
  }

  lemma PiecesOfOne(c: Printed)
    requires ValidPrinted(c)
    ensures forall i | 0 <= i < |Pieces(c)| :: CleanPiece(Pieces(c)[i])
    ensures Starting(Pieces(c)) == [Head(c)]
  {
    HeadStarts(c);
    if c.credentials.Params? {
      ParamsDoNotStart(c.credentials.others);
      StartingConcat([Head(c)], ParamTexts(c.credentials.others));
    }
    assert [Head(c)][1..] == [];
    assert Starting([Head(c)]) == StartingPiece(Head(c)) + [];
  }

  lemma {:induction false} StartingPiecesConcat(a: seq<string>, b: seq<string>)
    ensures StartingPieces(a + b) == StartingPieces(a) + StartingPieces(b)
    decreases |a|
  {
    if a == [] {
      assert a + b == b;
    } else {
      assert (a + b)[1..] == a[1..] + b;
      StartingPiecesConcat(a[1..], b);
    }
  }

  lemma {:induction false} BlanksDoNotStart(elements: seq<string>)
    requires AreBlank(elements)
    ensures StartingPieces(elements) == []
    decreases |elements|
  {
    if elements != [] {
      TrimPadded(elements[0], "", "");
      assert elements[0] + "" + "" == elements[0];
      assert TrimStart("") == "" && FirstWord("") == "";
      BlanksDoNotStart(elements[1..]);
    }
  }

  lemma PieceStarts(p: Spacing, piece: string)
    requires AllSpace(p.before) && AllSpace(p.after) && CleanPiece(piece)
    ensures StartingPieces([p.before + piece + p.after]) == StartingPiece(piece)
  {
    TrimPadded(p.before, piece, p.after);
    assert [p.before + piece + p.after][1..] == [];
    assert StartingPiece(piece) + [] == StartingPiece(piece);
  }

  /** The reader finds the pieces that start a challenge, whatever surrounds them. */
  lemma {:induction false} ElementsStart(pieces: seq<string>, spacing: seq<Spacing>, trailing: seq<string>)
    requires |spacing| == |pieces| && AreBlank(trailing)
    requires forall i | 0 <= i < |spacing| :: ValidSpacing(spacing[i])
    requires forall i | 0 <= i < |pieces| :: CleanPiece(pieces[i])
    ensures StartingPieces(Elements(pieces, spacing, trailing)) == Starting(pieces)
    ensures forall i | 0 <= i < |Elements(pieces, spacing, trailing)| :: ',' !in Elements(pieces, spacing, trailing)[i]
    decreases |pieces|
  {
    hide StartingPieces, StartingPiece, Trimmed;
    SpaceHasNoComma();
    if pieces == [] {
      BlanksDoNotStart(trailing);
    } else {
      var p, later := spacing[0], Elements(pieces[1..], spacing[1..], trailing);
      var padded := [p.before + pieces[0] + p.after];
      assert ValidSpacing(p) && CleanPiece(pieces[0]);
      ElementsStart(pieces[1..], spacing[1..], trailing);
      BlanksDoNotStart(p.blanks);
      PieceStarts(p, pieces[0]);
      StartingPiecesConcat(p.blanks, padded);
      StartingPiecesConcat(p.blanks + padded, later);
      assert [] + StartingPiece(pieces[0]) == StartingPiece(pieces[0]);
    }
  }

  lemma SpaceHasNoComma()
    ensures forall s: string | AllSpace(s) :: ',' !in s
  {
  }

  lemma {:induction false} SplitJoined(elements: seq<string>)
    requires elements != [] && forall i | 0 <= i < |elements| :: ',' !in elements[i]
    ensures Split(JoinCommas(elements), ',') == elements
    decreases |elements|
  {
    if |elements| == 1 {
      SplitLast(elements[0], ',');
    } else {
      var rest := JoinCommas(elements[1..]);
      SplitJoined(elements[1..]);
      SplitPiece(elements[0], ',', rest);
      assert JoinCommas(elements) == elements[0] + [','] + rest;
    }
  }

  /** Splitting a printed list at its commas and trimming recovers the starting pieces. */
  lemma ListIsRead(pieces: seq<string>, spacing: seq<Spacing>, trailing: seq<string>)
    requires |spacing| == |pieces| && AreBlank(trailing)
    requires forall i | 0 <= i < |spacing| :: ValidSpacing(spacing[i])
    requires forall i | 0 <= i < |pieces| :: CleanPiece(pieces[i])
    ensures StartingPieces(Split(JoinCommas(Elements(pieces, spacing, trailing)), ',')) == Starting(pieces)
  {
    var elements := Elements(pieces, spacing, trailing);
    ElementsStart(pieces, spacing, trailing);
    if elements == [] {
      SplitLast("", ',');
      BlanksDoNotStart([""]);
      assert StartingPieces([]) == [];
    } else {
      SplitJoined(elements);
    }
  }

  lemma {:induction false} HeadsConcat(a: seq<Printed>, b: seq<Printed>)
    ensures Heads(a + b) == Heads(a) + Heads(b)
  {
    if a == [] {
      assert a + b == b;
    } else {
      assert (a + b)[1..] == a[1..] + b;
      HeadsConcat(a[1..], b);
    }
  }

  /** Reading inverts printing: over any header fields, with the challenges spread over any number of
      `Proxy-Authenticate` fields, any white space around each comma and empty elements anywhere,
      the reader yields exactly one piece for each challenge, in order. */
  lemma {:induction false} ReaderInvertsPrinter(fields: seq<Field>)
    requires ValidFields(fields)
    ensures Challenges(PrintFields(fields)) == Heads(AllChallenges(fields))
  {
    if fields != [] {
      assert ValidField(fields[0]);
      ReaderInvertsPrinter(fields[1..]);
      var printed := PrintFields(fields);
      assert printed[1..] == PrintFields(fields[1..]);
      match fields[0]
      case ChallengeField(challenges, spacing, trailing) =>
        PiecesOfAll(challenges);
        ListIsRead(AllPieces(challenges), spacing, trailing);
        HeadsConcat(challenges, AllChallenges(fields[1..]));
      case OtherField(_, _) =>
        assert [] + AllChallenges(fields[1..]) == AllChallenges(fields[1..]);
    }
  }

  lemma {:induction false} OfferAmongHeads(cs: seq<Printed>)
    requires forall i | 0 <= i < |cs| :: ValidPrinted(cs[i])
    ensures FirstOffer(Heads(cs)) == FirstUsable(cs)
  {
    if cs != [] {
      HeadIsParsed(cs[0]);
      OfferAmongHeads(cs[1..]);
      assert Heads(cs)[1..] == Heads(cs[1..]);
    }
  }

  lemma {:induction false} AllChallengesValid(fields: seq<Field>)
    requires ValidFields(fields)
    ensures forall i | 0 <= i < |AllChallenges(fields)| :: ValidPrinted(AllChallenges(fields)[i])
  {
    if fields != [] {
      assert ValidField(fields[0]);
      AllChallengesValid(fields[1..]);
    }
  }

  /** The offer that is answered is the first Negotiate or NTLM challenge anywhere in the fields,
      never masked by a challenge before it. */
  lemma FirstUsableIsOffered(fields: seq<Field>)
    requires ValidFields(fields)
    ensures OfferIn(PrintFields(fields)) == FirstUsable(AllChallenges(fields))
  {
    ReaderInvertsPrinter(fields);
    AllChallengesValid(fields);
    OfferAmongHeads(AllChallenges(fields));
  }

  /** Among the challenges, the first Negotiate or NTLM one names `scheme`, in any letter case, and holds
      the encoded `token`, or nothing if there is none; or no challenge is for either scheme. */
  ghost predicate Offers(challenges: seq<Printed>, scheme: Option<AuthScheme>, token: Option<Token>) {
    match scheme
    case None => token == None && forall i | 0 <= i < |challenges| :: SchemeNamed(challenges[i].scheme).None?
    case Some(_) =>
      exists k | 0 <= k < |challenges| ::
        (forall i | 0 <= i < k :: SchemeNamed(challenges[i].scheme).None?)
        && SchemeNamed(challenges[k].scheme) == scheme
        && match token
           case None => challenges[k].credentials.Bare?
           case Some(t) => t != [] && challenges[k].credentials == Token68(Encode(t))
  }

  function OfferFor(scheme: Option<AuthScheme>, token: Option<Token>): NegotiateOffer {
    if scheme.None? then NotOffered
    else if token.None? then Offered(scheme.value)
    else Challenge(scheme.value, token.value)
  }

  lemma {:induction false} OfferedIsUsable(cs: seq<Printed>, scheme: Option<AuthScheme>, token: Option<Token>)
    requires Offers(cs, scheme, token)
    ensures FirstUsable(cs) == OfferFor(scheme, token)
  {
    if scheme.None? {
      if cs != [] { OfferedIsUsable(cs[1..], scheme, token); }
    } else {
      var k :| 0 <= k < |cs|
        && (forall i | 0 <= i < k :: SchemeNamed(cs[i].scheme).None?)
        && SchemeNamed(cs[k].scheme) == scheme
        && match token
           case None => cs[k].credentials.Bare?
           case Some(t) => t != [] && cs[k].credentials == Token68(Encode(t));
      if k == 0 {
        if token.Some? { DecodeEncode(token.value); }
      } else {
        assert cs[1..][k - 1] == cs[k];
        assert forall i | 0 <= i < k - 1 :: cs[1..][i] == cs[i + 1];
        OfferedIsUsable(cs[1..], scheme, token);
      }
    }
  }

  /** What the printed fields offer is what the reader takes from them: the scheme, and the token that the
      authenticator is fed. */
  lemma ContinuationTokenArrives(fields: seq<Field>, scheme: Option<AuthScheme>, token: Option<Token>)
    requires ValidFields(fields) && Offers(AllChallenges(fields), scheme, token)
    ensures OfferIn(PrintFields(fields)) == OfferFor(scheme, token)
    ensures OfferIn(PrintFields(fields)).Scheme() == scheme && OfferIn(PrintFields(fields)).ChallengeToken() == token
  {
    FirstUsableIsOffered(fields);
    OfferedIsUsable(AllChallenges(fields), scheme, token);
  }

  // ---------- The first answer ----------

  function Schemes(cs: seq<Printed>): seq<string> {
    if cs == [] then [] else [cs[0].scheme] + Schemes(cs[1..])
  }

  lemma HeadNamesScheme(c: Printed)
    requires ValidPrinted(c)
    ensures SchemeName(Head(c)) == c.scheme
  {
    TokenCharacters(c.scheme);
    if c.credentials.Bare? {
      FirstWordOf(c.scheme, "");
      assert c.scheme + "" == c.scheme;
    } else {
      FirstWordOf(c.scheme, " " + Leading(c.credentials));
      assert c.scheme + (" " + Leading(c.credentials)) == Head(c);
    }
  }

  lemma {:induction false} HeadsNameSchemes(cs: seq<Printed>)
    requires forall i | 0 <= i < |cs| :: ValidPrinted(cs[i])
    ensures SchemeNames(Heads(cs)) == Schemes(cs) && |Heads(cs)| == |cs|
  {
    if cs != [] {
      HeadNamesScheme(cs[0]);
      HeadsNameSchemes(cs[1..]);
      assert Heads(cs)[1..] == Heads(cs[1..]);
      assert SchemeNames(Heads(cs)) == [SchemeName(Heads(cs)[0])] + SchemeNames(Heads(cs)[1..]);
    }
  }

  /** A driver answers the first 407 under the keyword that is offered first, and under Negotiate if no
      challenge was printed. Where challenges were printed but none for either scheme, it takes no step
      of the authenticator and reports exactly the printed schemes, in order. */
  lemma FirstAnswer(auth: Authenticator, fields: seq<Field>, scheme: Option<AuthScheme>, token: Option<Token>)
    requires ValidFields(fields) && Offers(AllChallenges(fields), scheme, token)
    ensures var start, printed := NewState(NegotiateAuth(auth)), AllChallenges(fields);
            var (next, answer) := Answered(start, PrintFields(fields));
            if scheme.None? && printed != [] then
              next == start && answer == Err(NoUsableScheme(Schemes(printed)))
            else
              answer == match auth([token])
                        case Ok(t) => Ok(BuildProxyAuthorization(if scheme.Some? then scheme.value else Negotiate, t))
                        case Err(e) => Err(HandshakeFailed(e))
  {
    hide Challenges, FirstOffer, StartingPieces, BuildProxyAuthorization, PrintFields;
    ContinuationTokenArrives(fields, scheme, token);
    ReaderInvertsPrinter(fields);
    AllChallengesValid(fields);
    HeadsNameSchemes(AllChallenges(fields));
    assert [] + [token] == [token];
  }
}

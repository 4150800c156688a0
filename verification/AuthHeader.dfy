/** The `Proxy-Authenticate` and `Proxy-Authorization` values of the Negotiate and NTLM schemes. */
module AuthHeader {
  import opened Results
  import opened Text
  import opened Base64

  type Token = seq<Byte>

  datatype AuthScheme = Negotiate | Ntlm
  {
    function Keyword(): string {
      match this
      case Negotiate => "Negotiate"
      case Ntlm => "NTLM"
    }
  }

  datatype NegotiateOffer = NotOffered | Offered(via: AuthScheme) | Challenge(via: AuthScheme, token: Token)
  {
    function Scheme(): Option<AuthScheme> {
      if NotOffered? then None else Some(via)
    }

    function ChallengeToken(): Option<Token> {
      if Challenge? then Some(token) else None
    }
  }

  /** The scheme that a word names, in any letter case. */
  function SchemeNamed(word: string): Option<AuthScheme> {
    if EqualsIgnoreCase(word, "negotiate") then Some(Negotiate)
    else if EqualsIgnoreCase(word, "ntlm") then Some(Ntlm)
    else None
  }

  function ParseProxyAuthenticate(header: string): NegotiateOffer {
    var value := Trim(header);
    var n := WordLength(value);
    match SchemeNamed(value[..n])
    case None => NotOffered
    case Some(scheme) =>
      var text := if n < |value| then Trim(value[n + 1..]) else "";
      if text == "" then Offered(scheme)
      else
        match Decode(text)
        case Some(bytes) => Challenge(scheme, bytes)
        case None => Offered(scheme)
  }

  function BuildProxyAuthorization(scheme: AuthScheme, token: Token): string {
    scheme.Keyword() + " " + Encode(token)
  }

  /** What a scheme word followed by trimmed credentials is read as. */
  function OfferOf(word: string, credentials: string): NegotiateOffer {
    match SchemeNamed(word)
    case None => NotOffered
    case Some(scheme) =>
      if credentials == "" || Decode(credentials).None? then Offered(scheme)
      else Challenge(scheme, Decode(credentials).value)
  }

  /** How a trimmed value divides into its first word and its credentials. */
  function Divide(value: string): (string, string) {
    var n := WordLength(value);
    (value[..n], if n < |value| then Trim(value[n + 1..]) else "")
  }

  /** A word names a scheme in any letter case, and no other word does. */
  lemma NamesInAnyCase(word: string)
    ensures SchemeNamed(word) ==
            if ToLower(word) == "negotiate" then Some(Negotiate)
            else if ToLower(word) == "ntlm" then Some(Ntlm)
            else None
  {
    hide ToLower;
    LowerEach(word);
    var negotiate, ntlm := "negotiate", "ntlm";
    assert EqualsIgnoreCase(word, negotiate) <==> ToLower(word) == negotiate;
    assert EqualsIgnoreCase(word, ntlm) <==> ToLower(word) == ntlm;
  }

  lemma ParseDivided(header: string)
    ensures var (word, credentials) := Divide(Trim(header));
            ParseProxyAuthenticate(header) == OfferOf(word, credentials)
  {
  }

  lemma ParseWord(word: string)
    requires word != "" && NoSpace(word)
    ensures ParseProxyAuthenticate(word) == ParseProxyAuthenticate(word + " ") == OfferOf(word, "")
  {
    assert word + "" == word && "" + word + " " == word + " ";
    TrimTrimmed(word);
    TrimPadded("", word, " ");
    WordLengthOf(word, "");
    assert Divide(word) == (word, "");
    ParseDivided(word);
    ParseDivided(word + " ");
  }

  lemma ParseCredentials(word: string, credentials: string)
    requires word != "" && NoSpace(word) && Trimmed(credentials)
    ensures ParseProxyAuthenticate(word + " " + credentials) == OfferOf(word, credentials)
  {
    var header := word + " " + credentials;
    if credentials == "" {
      ParseWord(word);
      assert header == word + " ";
    } else {
      TrimTrimmed(header);
      assert header == word + (" " + credentials);
      WordLengthOf(word, " " + credentials);
      assert header[|word| + 1..] == credentials;
      TrimTrimmed(credentials);
      assert Divide(header) == (word, credentials);
      ParseDivided(header);
    }
  }

  lemma KeywordNamesScheme(scheme: AuthScheme)
    ensures SchemeNamed(scheme.Keyword()) == Some(scheme)
    ensures scheme.Keyword() != "" && NoSpace(scheme.Keyword())
  {
    assert scheme.Keyword() == if scheme.Negotiate? then "Negotiate" else "NTLM";
  }

  lemma EncodedIsTrimmed(token: Token)
    ensures NoSpace(Encode(token)) && Trimmed(Encode(token)) && ',' !in Encode(token)
  {
    EncodedCharacters(token);
  }

  /** A gateway reads back the scheme and the token of a rendered value; only an empty token is
      indistinguishable from a bare offer. */
  lemma TokenIsRecovered(scheme: AuthScheme, token: Token)
    ensures ParseProxyAuthenticate(BuildProxyAuthorization(scheme, token))
         == if token == [] then Offered(scheme) else Challenge(scheme, token)
  {
    EncodedIsTrimmed(token);
    KeywordNamesScheme(scheme);
    ParseCredentials(scheme.Keyword(), Encode(token));
    DecodeEncode(token);
  }

  /** A header reader that strips the white space around the value changes nothing. */
  lemma TrimmedValueParses(value: string)
    ensures ParseProxyAuthenticate(Trim(value)) == ParseProxyAuthenticate(value)
  {
    TrimTwice(value);
  }

  lemma ValueIsOneLine(scheme: AuthScheme, token: Token)
    ensures CR !in BuildProxyAuthorization(scheme, token) && LF !in BuildProxyAuthorization(scheme, token)
  {
    EncodedCharacters(token);
    assert scheme.Keyword() == if scheme.Negotiate? then "Negotiate" else "NTLM";
  }

  /** Rendered values differ as soon as the scheme or the token does. */
  lemma RenderingIsInjective(scheme: AuthScheme, token: Token, scheme': AuthScheme, token': Token)
    requires BuildProxyAuthorization(scheme, token) == BuildProxyAuthorization(scheme', token')
    ensures scheme == scheme' && token == token'
  {
    TokenIsRecovered(scheme, token);
    TokenIsRecovered(scheme', token');
  }
}

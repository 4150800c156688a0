/** Searching, trimming, splitting and number parsing over ASCII text: one character stands for one
    byte. */
module Text {
  import opened Results

  const CR: char := '\r'
  const LF: char := '\n'
  const CRLF: string := "\r\n"

  // ---------- Prefixes, suffixes and leftmost search ----------

  /** `p` occurs in `s` at offset `k`. */
  predicate OccursAt(s: string, p: string, k: nat) {
    k <= |s| && p <= s[k..]
  }

  predicate EndsWith(s: string, p: string) {
    |p| <= |s| && s[|s| - |p|..] == p
  }

  /** The least offset at which `p` occurs in `s`. */
  function Find(s: string, p: string): Option<nat>
    decreases |s|
  {
    if OccursAt(s, p, 0) then Some(0)
    else if s == "" then None
    else
      match Find(s[1..], p)
      case Some(off) => Some(off + 1)
      case None => None
  }

  ghost predicate IsLeftmost(s: string, p: string, off: nat) {
    OccursAt(s, p, off) && forall k: nat | k < off :: !OccursAt(s, p, k)
  }

  ghost predicate OccursNowhere(s: string, p: string) {
    forall k: nat :: !OccursAt(s, p, k)
  }

  lemma {:induction false} FindIsLeftmost(s: string, p: string)
    ensures match Find(s, p) case Some(off) => IsLeftmost(s, p, off) case None => OccursNowhere(s, p)
    decreases |s|
  {
    if !OccursAt(s, p, 0) && s != "" {
      FindIsLeftmost(s[1..], p);
      forall k: nat | 0 < k
        ensures OccursAt(s, p, k) <==> OccursAt(s[1..], p, k - 1)
      {
        if k <= |s| {
          assert s[1..][k - 1..] == s[k..];
        }
      }
    }
  }

  lemma LeftmostIsFound(s: string, p: string, off: nat)
    requires IsLeftmost(s, p, off)
    ensures Find(s, p) == Some(off)
  {
    FindIsLeftmost(s, p);
  }

  // ---------- Case and white space ----------

  predicate IsSpace(c: char) {
    c == ' ' || '\t' <= c <= '\r'
  }

  function LowerChar(c: char): char {
    if 'A' <= c <= 'Z' then ((c as int) + 32) as char else c
  }

  function ToLower(s: string): string {
    if s == "" then "" else [LowerChar(s[0])] + ToLower(s[1..])
  }

  const UPPER: string := "ABCDEFGHIJKLMNOPQRSTUVWXYZ"
  const LOWER: string := "abcdefghijklmnopqrstuvwxyz"

  /** Each letter of the upper-case alphabet changes into its own lower-case letter. */
  lemma LettersAreLowered(upper: string, lower: string, i: nat)
    requires upper == UPPER && lower == LOWER && i < 26
    ensures LowerChar(upper[i]) == lower[i]
  {
  }

  /** And nothing else changes. */
  lemma OthersAreKept(upper: string, c: char)
    requires upper == UPPER && LowerChar(c) != c
    ensures c in upper
  {
    assert upper[(c as int) - 65] == c;
  }

  lemma {:induction false} LowerEach(s: string)
    ensures |ToLower(s)| == |s| && forall i | 0 <= i < |s| :: ToLower(s)[i] == LowerChar(s[i])
  {
    if s != "" {
      LowerEach(s[1..]);
    }
  }

  /** A text in lower case is what every spelling of it in other cases is lowered to. */
  lemma LowerIs(s: string, lower: string)
    requires |s| == |lower| && forall i | 0 <= i < |s| :: LowerChar(s[i]) == lower[i]
    ensures ToLower(s) == lower
  {
    LowerEach(s);
  }

  /** The white space of ASCII. */
  lemma SpaceIs(c: char)
    ensures IsSpace(c) <==> c in " \t\n\U{000B}\U{000C}\r"
  {
  }

  predicate EqualsIgnoreCase(a: string, b: string) {
    |a| == |b| && forall i | 0 <= i < |a| :: LowerChar(a[i]) == LowerChar(b[i])
  }

  function TrimStart(s: string): string {
    if s != "" && IsSpace(s[0]) then TrimStart(s[1..]) else s
  }

  function TrimEnd(s: string): string {
    if s != "" && IsSpace(s[|s| - 1]) then TrimEnd(s[..|s| - 1]) else s
  }

  function Trim(s: string): string {
    TrimEnd(TrimStart(s))
  }

  /** Neither end of `s` is white space. */
  predicate Trimmed(s: string) {
    s != "" ==> !IsSpace(s[0]) && !IsSpace(s[|s| - 1])
  }

  predicate AllSpace(s: string) {
    forall i | 0 <= i < |s| :: IsSpace(s[i])
  }

  lemma {:induction false} TrimStartSkips(before: string, s: string)
    requires AllSpace(before) && (s != "" ==> !IsSpace(s[0]))
    ensures TrimStart(before + s) == s
  {
    if before == "" {
      assert before + s == s;
    } else {
      assert (before + s)[1..] == before[1..] + s;
      TrimStartSkips(before[1..], s);
    }
  }

  lemma {:induction false} TrimEndDrops(s: string, after: string)
    requires AllSpace(after) && (s != "" ==> !IsSpace(s[|s| - 1]))
    ensures TrimEnd(s + after) == s
  {
    if after == "" {
      assert s + after == s;
    } else {
      assert (s + after)[..|s + after| - 1] == s + after[..|after| - 1];
      TrimEndDrops(s, after[..|after| - 1]);
    }
  }

  /** Trimming strips exactly the white space put around a trimmed text. */
  lemma TrimPadded(before: string, s: string, after: string)
    requires AllSpace(before) && AllSpace(after) && Trimmed(s)
    ensures Trim(before + s + after) == s
  {
    if s == "" {
      assert before + s + after == (before + after) + "";
      TrimStartSkips(before + after, "");
    } else {
      assert before + s + after == before + (s + after);
      TrimStartSkips(before, s + after);
      TrimEndDrops(s, after);
    }
  }

  lemma TrimTrimmed(s: string)
    requires Trimmed(s)
    ensures Trim(s) == s
  {
    TrimPadded("", s, "");
    assert "" + s + "" == s;
  }

  lemma {:induction false} TrimStartIsTrimmed(s: string)
    ensures TrimStart(s) != "" ==> !IsSpace(TrimStart(s)[0])
  {
    if s != "" && IsSpace(s[0]) {
      TrimStartIsTrimmed(s[1..]);
    }
  }

  lemma {:induction false} TrimEndIsTrimmed(s: string)
    ensures TrimEnd(s) != "" ==> !IsSpace(TrimEnd(s)[|TrimEnd(s)| - 1])
    ensures TrimEnd(s) <= s
  {
    if s != "" && IsSpace(s[|s| - 1]) {
      TrimEndIsTrimmed(s[..|s| - 1]);
    }
  }

  lemma TrimTwice(s: string)
    ensures Trimmed(Trim(s)) && Trim(Trim(s)) == Trim(s)
  {
    TrimStartIsTrimmed(s);
    TrimEndIsTrimmed(TrimStart(s));
    TrimTrimmed(Trim(s));
  }

  /** The first run of non-space characters, "" if there is none. */
  function FirstWord(s: string): (r: string) {
    var t := TrimStart(s);
    t[..WordLength(t)]
  }

  /** What follows the first word. */
  function AfterFirstWord(s: string): (r: string) {
    var t := TrimStart(s);
    t[WordLength(t)..]
  }

  function WordLength(s: string): (n: nat)
    ensures n <= |s|
  {
    if s == "" || IsSpace(s[0]) then 0 else 1 + WordLength(s[1..])
  }

  predicate NoSpace(s: string) {
    forall i | 0 <= i < |s| :: !IsSpace(s[i])
  }

  lemma {:induction false} WordLengthOf(w: string, rest: string)
    requires NoSpace(w) && (rest == "" || IsSpace(rest[0]))
    ensures WordLength(w + rest) == |w| && (w + rest)[..|w|] == w && (w + rest)[|w|..] == rest
  {
    if w == "" {
      assert w + rest == rest;
    } else {
      assert (w + rest)[1..] == w[1..] + rest;
      WordLengthOf(w[1..], rest);
    }
  }

  /** A word without spaces, followed by nothing or by a space, is the first word. */
  lemma FirstWordOf(w: string, rest: string)
    requires w != "" && NoSpace(w)
    requires rest == "" || IsSpace(rest[0])
    ensures FirstWord(w + rest) == w && AfterFirstWord(w + rest) == rest
  {
    assert (w + rest)[0] == w[0];
    WordLengthOf(w, rest);
  }

  /** White space before the word does not matter. */
  lemma FirstWordAfterSpace(before: string, w: string, rest: string)
    requires AllSpace(before) && w != "" && NoSpace(w)
    requires rest == "" || IsSpace(rest[0])
    ensures FirstWord(before + (w + rest)) == w && AfterFirstWord(before + (w + rest)) == rest
  {
    TrimStartSkips(before, w + rest);
    WordLengthOf(w, rest);
  }

  // ---------- Splitting ----------

  function Split(s: string, sep: char): (pieces: seq<string>)
    ensures |pieces| >= 1
  {
    if s == "" then [""]
    else
      var rest := Split(s[1..], sep);
      if s[0] == sep then [""] + rest else [[s[0]] + rest[0]] + rest[1..]
  }

  lemma {:induction false} SplitPiece(a: string, sep: char, b: string)
    requires sep !in a
    ensures Split(a + [sep] + b, sep) == [a] + Split(b, sep)
  {
    if a == "" {
      assert a + [sep] + b == [sep] + b;
    } else {
      SplitPiece(a[1..], sep, b);
      assert (a + [sep] + b)[1..] == a[1..] + [sep] + b;
      assert [a[0]] + a[1..] == a;
    }
  }

  lemma {:induction false} SplitLast(a: string, sep: char)
    requires sep !in a
    ensures Split(a, sep) == [a]
  {
    if a != "" {
      SplitLast(a[1..], sep);
      assert [a[0]] + a[1..] == a;
    }
  }

  /** Text up to and after the first `sep`, if there is one. */
  function SplitOnce(s: string, sep: char): Option<(string, string)> {
    if s == "" then None
    else if s[0] == sep then Some(("", s[1..]))
    else
      match SplitOnce(s[1..], sep)
      case Some((a, b)) => Some(([s[0]] + a, b))
      case None => None
  }

  lemma {:induction false} SplitOnceAt(a: string, sep: char, b: string)
    requires sep !in a
    ensures SplitOnce(a + [sep] + b, sep) == Some((a, b))
  {
    if a == "" {
      assert a + [sep] + b == [sep] + b;
    } else {
      SplitOnceAt(a[1..], sep, b);
      assert (a + [sep] + b)[1..] == a[1..] + [sep] + b;
      assert [a[0]] + a[1..] == a;
    }
  }

  /** Lines separated by CR LF. */
  function SplitLines(s: string): (lines: seq<string>)
    ensures |lines| >= 1
  {
    if s == "" then [""]
    else if |s| >= 2 && s[0] == CR && s[1] == LF then [""] + SplitLines(s[2..])
    else
      var rest := SplitLines(s[1..]);
      [[s[0]] + rest[0]] + rest[1..]
  }

  lemma {:induction false} SplitLinesAt(a: string, b: string)
    requires CR !in a
    ensures SplitLines(a + CRLF + b) == [a] + SplitLines(b)
  {
    var s := a + CRLF + b;
    if a == "" {
      assert s[2..] == b;
    } else {
      SplitLinesAt(a[1..], b);
      assert s[1..] == a[1..] + CRLF + b;
      assert [a[0]] + a[1..] == a;
      assert s[0] == a[0];
    }
  }

  // ---------- Numbers ----------

  function DigitOf(c: char): Option<nat> {
    if '0' <= c <= '9' then Some((c as int) - ('0' as int))
    else if 'a' <= c <= 'f' then Some((c as int) - ('a' as int) + 10)
    else if 'A' <= c <= 'F' then Some((c as int) - ('A' as int) + 10)
    else None
  }

  const DIGITS: string := "0123456789abcdef"
  const CAPITAL_DIGITS: string := "0123456789ABCDEF"

  /** The digits have their places in the table as values, in both letter cases. */
  lemma DigitsAre(digits: string, d: nat)
    requires (digits == DIGITS || digits == CAPITAL_DIGITS) && d < 16
    ensures DigitOf(digits[d]) == Some(d)
  {
  }

  /** And no other character is a digit. */
  lemma OnlyDigits(lower: string, upper: string, c: char)
    requires lower == DIGITS && upper == CAPITAL_DIGITS && DigitOf(c).Some?
    ensures c in lower || c in upper
  {
    var d := DigitOf(c).value;
    assert c == lower[d] || c == upper[d];
  }

  /** A number in hexadecimal, without leading zeros. */
  function Hex(n: nat, digits: string): (s: string)
    requires |digits| == 16
    ensures s != ""
  {
    if n < 16 then [digits[n]] else Hex(n / 16, digits) + [digits[n % 16]]
  }

  predicate IsDigit(c: char, radix: nat) {
    DigitOf(c).Some? && DigitOf(c).value < radix
  }

  predicate AllDigits(s: string, radix: nat) {
    forall i | 0 <= i < |s| :: IsDigit(s[i], radix)
  }

  /** The number that a string of digits writes. */
  function NumberOf(s: string, radix: nat): nat
    requires AllDigits(s, radix)
  {
    if s == "" then 0 else NumberOf(s[..|s| - 1], radix) * radix + DigitOf(s[|s| - 1]).value
  }

  /** Parsing into an unsigned type whose largest value is `max`: an optional plus sign,
      then at least one digit, and no overflow. */
  function ParseUnsigned(s: string, radix: nat, max: nat): Option<nat> {
    var digits := if s != "" && s[0] == '+' then s[1..] else s;
    if digits == "" || !AllDigits(digits, radix) then None
    else if NumberOf(digits, radix) > max then None
    else Some(NumberOf(digits, radix))
  }

  const MAX_U16: nat := 0xFFFF
  const MAX_U64: nat := 0xFFFF_FFFF_FFFF_FFFF

  /** A number in decimal, without leading zeros. */
  function Decimal(n: nat): string {
    if n < 10 then [((n + 48) as char)] else Decimal(n / 10) + [((n % 10 + 48) as char)]
  }

  lemma {:induction false} DecimalDigits(n: nat)
    ensures Decimal(n) != "" && AllDigits(Decimal(n), 10) && NumberOf(Decimal(n), 10) == n
  {
    var d := Decimal(n);
    if n >= 10 {
      DecimalDigits(n / 10);
      assert d[..|d| - 1] == Decimal(n / 10);
    } else {
      assert d[..0] == "";
    }
  }

  /** Printing in decimal and parsing back gives the number, whenever it fits the type. */
  lemma ParseDecimal(n: nat, max: nat)
    ensures ParseUnsigned(Decimal(n), 10, max) == if n <= max then Some(n) else None
  {
    DecimalDigits(n);
    assert IsDigit(Decimal(n)[0], 10);
  }

  lemma {:induction false} HexDigits(n: nat, digits: string)
    requires digits == DIGITS || digits == CAPITAL_DIGITS
    ensures AllDigits(Hex(n, digits), 16) && NumberOf(Hex(n, digits), 16) == n
  {
    hide DigitOf;
    var h := Hex(n, digits);
    DigitsAre(digits, n % 16);
    if n >= 16 {
      HexDigits(n / 16, digits);
      assert h[..|h| - 1] == Hex(n / 16, digits) && h[|h| - 1] == digits[n % 16];
    } else {
      assert h[..0] == "";
    }
  }

  /** A plus sign before the digits does not matter. */
  lemma ParseSigned(digits: string, radix: nat, max: nat)
    requires digits != "" && digits[0] != '+'
    ensures ParseUnsigned("+" + digits, radix, max) == ParseUnsigned(digits, radix, max)
  {
    assert ("+" + digits)[1..] == digits;
  }

  /** Printing in hexadecimal, in either letter case, and parsing back gives the number, whenever it fits
      the type. */
  lemma ParseHex(n: nat, max: nat, digits: string)
    requires digits == DIGITS || digits == CAPITAL_DIGITS
    ensures ParseUnsigned(Hex(n, digits), 16, max) == if n <= max then Some(n) else None
  {
    HexDigits(n, digits);
    assert IsDigit(Hex(n, digits)[0], 16);
  }

  lemma DecimalHasNoSpace(n: nat)
    ensures Decimal(n) != "" && NoSpace(Decimal(n)) && Trimmed(Decimal(n))
  {
    DecimalDigits(n);
    assert forall c | IsDigit(c, 10) :: !IsSpace(c);
  }
}

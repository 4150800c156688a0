/** The bypass list of a static proxy: a greedy wildcard matcher, proved to decide the
    declarative meaning of a pattern. */
module Discovery {
  import opened Text

  // ---------- What a pattern means ----------

  function Stars(pattern: string): nat {
    if pattern == "" then 0
    else (if pattern[0] == '*' then 1 else 0) + Stars(pattern[1..])
  }

  /** The pattern with its k-th `*` replaced by `fills[k]`. */
  function Fill(pattern: string, fills: seq<string>): string
    requires |fills| == Stars(pattern)
  {
    if pattern == "" then ""
    else if pattern[0] == '*' then fills[0] + Fill(pattern[1..], fills[1..])
    else [pattern[0]] + Fill(pattern[1..], fills)
  }

  /** `text` is `pattern` with every `*` replaced by some, possibly empty, string. */
  ghost predicate Matches(pattern: string, text: string) {
    exists fills: seq<string> | |fills| == Stars(pattern) :: Fill(pattern, fills) == text
  }

  // ---------- The segments between the stars ----------

  /** A fill before each segment. */
  function Interleave(fills: seq<string>, parts: seq<string>): string
    requires |fills| == |parts|
  {
    if parts == [] then "" else fills[0] + parts[0] + Interleave(fills[1..], parts[1..])
  }

  /** `rest` consists of the segments in order, with arbitrary text before each of them. */
  ghost predicate Covers(parts: seq<string>, rest: string) {
    exists fills: seq<string> | |fills| == |parts| :: Interleave(fills, parts) == rest
  }

  lemma {:induction false} FillIsInterleave(pattern: string, fills: seq<string>)
    requires |fills| == Stars(pattern)
    ensures |Split(pattern, '*')| == Stars(pattern) + 1
    ensures Fill(pattern, fills) == Split(pattern, '*')[0] + Interleave(fills, Split(pattern, '*')[1..])
  {
    if pattern != "" {
      var parts := Split(pattern[1..], '*');
      if pattern[0] == '*' {
        FillIsInterleave(pattern[1..], fills[1..]);
        assert Split(pattern, '*') == [""] + parts;
        var inner := Interleave(fills[1..], parts[1..]);
        assert fills[0] + (parts[0] + inner) == "" + (fills[0] + parts[0] + inner);
        assert ([""] + parts)[1..] == parts;
      } else {
        FillIsInterleave(pattern[1..], fills);
        var inner := Interleave(fills, parts[1..]);
        var first := [pattern[0]] + parts[0];
        assert Split(pattern, '*') == [first] + parts[1..];
        assert [pattern[0]] + (parts[0] + inner) == first + inner;
        assert ([first] + parts[1..])[1..] == parts[1..];
      }
    } else {
      assert Split(pattern, '*')[1..] == [];
    }
  }

  lemma StarsCountSegments(pattern: string)
    ensures |Split(pattern, '*')| == Stars(pattern) + 1
    ensures '*' !in pattern <==> Stars(pattern) == 0
  {
    if pattern != "" {
      StarsCountSegments(pattern[1..]);
    }
  }

  /** A pattern matches when its first segment is a prefix and the others cover what is left. */
  lemma MatchesFromPrefix(pattern: string, text: string)
    ensures var parts := Split(pattern, '*');
            Matches(pattern, text) <==> parts[0] <= text && Covers(parts[1..], text[|parts[0]|..])
  {
    hide Split, Stars, Fill, Interleave;
    var parts := Split(pattern, '*');
    var first, others := parts[0], parts[1..];
    StarsCountSegments(pattern);
    if first <= text && Covers(others, text[|first|..]) {
      var fills: seq<string> :| |fills| == |others| && Interleave(fills, others) == text[|first|..];
      FillIsInterleave(pattern, fills);
      assert Fill(pattern, fills) == text;
    }
    if Matches(pattern, text) {
      var fills: seq<string> :| |fills| == Stars(pattern) && Fill(pattern, fills) == text;
      FillIsInterleave(pattern, fills);
      assert Interleave(fills, others) == text[|first|..];
    }
  }

  lemma CoversNothing(text: string)
    ensures forall k: nat | k <= |text| :: Covers([], text[k..]) <==> k == |text|
  {
    forall k: nat | k <= |text|
      ensures Covers([], text[k..]) <==> k == |text|
    {
      var none: seq<string> := [];
      assert Interleave(none, []) == "";
    }
  }

  /** The last segment only has to be a suffix. */
  lemma CoversLast(part: string, rest: string)
    ensures Covers([part], rest) <==> EndsWith(rest, part)
  {
    if EndsWith(rest, part) {
      var fills := [rest[..|rest| - |part|]];
      assert Interleave(fills, [part]) == fills[0] + part + "";
      assert Interleave(fills, [part]) == rest;
    }
    if Covers([part], rest) {
      var fills: seq<string> :| |fills| == 1 && Interleave(fills, [part]) == rest;
      assert Interleave(fills[1..], [part][1..]) == "";
      assert rest == fills[0] + part + "";
      assert rest[|fills[0]|..] == part;
    }
  }

  /** The exchange argument: fills that place the first segment anywhere turn into fills that
      place it at its leftmost occurrence, the skipped text moving into the next fill. */
  lemma MoveLeft(fills: seq<string>, parts: seq<string>, rest: string, off: nat)
    requires |fills| == |parts| >= 2 && Interleave(fills, parts) == rest
    requires IsLeftmost(rest, parts[0], off)
    ensures Covers(parts[1..], rest[off + |parts[0]|..])
  {
    var p, at := parts[0], |fills[0]|;
    var inner := Interleave(fills[1..], parts[1..]);
    Slices(rest, fills[0], p, inner, off);
    assert OccursAt(rest, p, at);
    PrependToFirst(rest[off + |p|..at + |p|], fills[1..], parts[1..]);
  }

  lemma Slices(s: string, a: string, p: string, b: string, k: nat)
    requires s == a + p + b
    ensures p <= s[|a|..]
    ensures k <= |a| ==> s[k + |p|..] == s[k + |p|..|a| + |p|] + b
  {
    assert s[|a|..] == p + b;
    assert s[|a| + |p|..] == b;
  }

  lemma PrependToFirst(text: string, fills: seq<string>, parts: seq<string>)
    requires |fills| == |parts| >= 1
    ensures Interleave([text + fills[0]] + fills[1..], parts) == text + Interleave(fills, parts)
  {
    var moved := [text + fills[0]] + fills[1..];
    assert moved[1..] == fills[1..];
    var inner := Interleave(fills[1..], parts[1..]);
    assert text + fills[0] + parts[0] + inner == text + (fills[0] + parts[0] + inner);
  }

  lemma Divided(s: string, off: nat, p: string)
    requires OccursAt(s, p, off)
    ensures s == s[..off] + p + s[off + |p|..]
  {
  }

  lemma PlaceAt(parts: seq<string>, rest: string, off: nat)
    requires parts != [] && OccursAt(rest, parts[0], off)
    requires Covers(parts[1..], rest[off + |parts[0]|..])
    ensures Covers(parts, rest)
  {
    var tail := rest[off + |parts[0]|..];
    var fs: seq<string> :| |fs| == |parts[1..]| && Interleave(fs, parts[1..]) == tail;
    var fills := [rest[..off]] + fs;
    assert fills[1..] == fs;
    Divided(rest, off, parts[0]);
    assert Interleave(fills, parts) == rest[..off] + parts[0] + Interleave(fs, parts[1..]);
  }

  /** Searching for the leftmost occurrence of the next segment never loses a match. */
  lemma LeftmostLosesNothing(parts: seq<string>, rest: string, off: nat)
    requires |parts| >= 2
    requires IsLeftmost(rest, parts[0], off)
    ensures off + |parts[0]| <= |rest|
    ensures Covers(parts, rest) <==> Covers(parts[1..], rest[off + |parts[0]|..])
  {
    if Covers(parts[1..], rest[off + |parts[0]|..]) {
      PlaceAt(parts, rest, off);
    }
    if Covers(parts, rest) {
      var fills: seq<string> :| |fills| == |parts| && Interleave(fills, parts) == rest;
      MoveLeft(fills, parts, rest, off);
    }
  }

  /** A segment that occurs nowhere cannot be covered. */
  lemma AbsentIsNotCovered(parts: seq<string>, rest: string)
    requires parts != []
    requires OccursNowhere(rest, parts[0])
    ensures !Covers(parts, rest)
  {
    forall fills: seq<string> | |fills| == |parts|
      ensures Interleave(fills, parts) != rest
    {
      var whole := Interleave(fills, parts);
      assert whole[|fills[0]|..] == parts[0] + Interleave(fills[1..], parts[1..]);
      assert OccursAt(whole, parts[0], |fills[0]|);
    }
  }

  // ---------- The matcher ----------

  lemma SegmentsFrom(parts: seq<string>, i: nat)
    requires i < |parts|
    ensures parts[i..][0] == parts[i] && parts[i..][1..] == parts[i + 1..]
    ensures i == |parts| - 1 ==> parts[i..] == [parts[i]]
  {
  }

  lemma EmptyOccurs(s: string)
    ensures IsLeftmost(s, "", 0)
  {
  }

  lemma CoversNothingExactly(pattern: string, text: string)
    requires '*' !in pattern
    ensures Matches(pattern, text) <==> pattern == text
  {
    MatchesFromPrefix(pattern, text);
    StarsCountSegments(pattern);
    SplitLast(pattern, '*');
    CoversNothing(text);
    if pattern <= text {
      assert Covers([], text[|pattern|..]) <==> |pattern| == |text|;
    }
  }

  /** Greedy leftmost search decides the meaning of the pattern: it never misses a match, and
      the trailing segment never overlaps text that an earlier segment consumed. */
  method WildcardMatch(pattern: string, text: string) returns (r: bool)
    ensures r <==> Matches(pattern, text)
  {
    hide Matches, Covers, OccursAt;
    if '*' !in pattern {
      CoversNothingExactly(pattern, text);
      return pattern == text;
    }
    MatchesFromPrefix(pattern, text);
    StarsCountSegments(pattern);
    var parts := Split(pattern, '*');
    var last := |parts| - 1;
    if !(parts[0] <= text) {
      return false;
    }
    var rest := text[|parts[0]|..];
    var i := 1;
    while i < |parts|
      invariant 1 <= i <= last
      invariant Matches(pattern, text) <==> Covers(parts[i..], rest)
    {
      var part := parts[i];
      SegmentsFrom(parts, i);
      if i == last {
        CoversLast(part, rest);
        return EndsWith(rest, part);
      }
      if part == "" {
        EmptyOccurs(rest);
        LeftmostLosesNothing(parts[i..], rest, 0);
        i := i + 1;
        continue;
      }
      FindIsLeftmost(rest, part);
      match Find(rest, part) {
        case Some(off) =>
          LeftmostLosesNothing(parts[i..], rest, off);
          rest := rest[off + |part|..];
        case None =>
          AbsentIsNotCovered(parts[i..], rest);
          return false;
      }
      i := i + 1;
    }
    return true;
  }

  const LOCAL: string := "<local>"

  /** What one entry of the bypass list admits. */
  ghost predicate EntryAdmits(entry: string, host: string) {
    if entry == "<local>" then '.' !in host else Matches(entry, host)
  }

  /** A host is bypassed exactly when some entry of the list admits it. */
  method HostBypassed(host: string, entries: seq<string>) returns (r: bool)
    ensures r <==> exists k :: 0 <= k < |entries| && EntryAdmits(entries[k], host)
  {
    for i := 0 to |entries|
      invariant forall k | 0 <= k < i :: !EntryAdmits(entries[k], host)
    {
      var hit;
      if entries[i] == LOCAL {
        hit := '.' !in host;
      } else {
        hit := WildcardMatch(entries[i], host);
      }
      if hit {
        return true;
      }
    }
    return false;
  }
}

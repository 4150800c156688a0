/** Framed responses as a printer (sections 6.3 and 7.1 of RFC 9112), and the proof of what the wire
    reader consumes of them: exactly the response, except where trailer fields or a second framing
    are involved. */
module Framing {
  import opened Results
  import opened Text
  import opened UpstreamAuth
  import opened Wire

  /** A header field, with white space around its value. */
  datatype Field = Field(name: string, before: string, text: string, after: string)

  /** A chunk: its size as the upstream writes it, white space after it, an extension, and its data. */
  datatype Chunk = Chunk(size: string, gap: string, extension: string, data: string)

  /** How a body is delimited: nothing, a declared length, or chunks ended by a zero chunk and,
      where the upstream sends them, trailer lines. */
  datatype Body =
    | NoBody
    | Sized(field: Field, data: string)
    | Chunked(field: Field, chunks: seq<Chunk>, last: Chunk, trailers: seq<string>)

  datatype Response = Response(
    version: string, status: nat, reason: string, before: seq<Field>, body: Body, after: seq<Field>)

  // ---------- Well-formedness ----------

  predicate IsLineText(s: string) {
    CR !in s && LF !in s
  }

  predicate ValidField(f: Field) {
    f.name != "" && ':' !in f.name && Trimmed(f.name)
    && AllSpace(f.before) && Trimmed(f.text) && AllSpace(f.after)
    && IsLineText(f.name) && IsLineText(f.before) && IsLineText(f.text) && IsLineText(f.after)
  }

  predicate IsNamed(f: Field, name: string) {
    ToLower(f.name) == name
  }

  predicate FramesNothing(fields: seq<Field>) {
    forall i | 0 <= i < |fields| ::
      !IsNamed(fields[i], "content-length") && !IsNamed(fields[i], "transfer-encoding")
  }

  predicate ValidFields(fields: seq<Field>) {
    forall i | 0 <= i < |fields| :: ValidField(fields[i])
  }

  /** One or more hexadecimal digits, white space, and an extension introduced by a semicolon. */
  predicate ValidSizeLine(c: Chunk) {
    c.size != "" && AllDigits(c.size, 16)
    && AllSpace(c.gap) && LF !in c.gap
    && (c.extension == "" || c.extension[0] == ';') && LF !in c.extension
    && |SizeLine(c)| <= LINE_LIMIT
  }

  predicate ValidChunk(c: Chunk) {
    ValidSizeLine(c) && c.data != "" && NumberOf(c.size, 16) == |c.data|
  }

  predicate ValidChunks(chunks: seq<Chunk>) {
    forall i | 0 <= i < |chunks| :: ValidChunk(chunks[i])
  }

  predicate ValidLast(c: Chunk) {
    ValidSizeLine(c) && NumberOf(c.size, 16) == 0
  }

  function TotalData(chunks: seq<Chunk>): nat {
    if chunks == [] then 0 else |chunks[0].data| + TotalData(chunks[1..])
  }

  /** The one field that frames the body, where there is one. */
  function FramingField(body: Body): seq<Field> {
    match body
    case NoBody => []
    case Sized(f, _) => [f]
    case Chunked(f, _, _, _) => [f]
  }

  predicate ValidBody(body: Body) {
    match body
    case NoBody => true
    case Sized(f, data) =>
      IsNamed(f, "content-length") && ParseUnsigned(f.text, 10, MAX_U64) == Some(|data|)
      && |data| <= MAX_DRAIN_BYTES
    case Chunked(f, chunks, last, trailers) =>
      IsNamed(f, "transfer-encoding") && Find(ToLower(f.text), "chunked").Some?
      && ValidChunks(chunks) && ValidLast(last) && TotalData(chunks) <= MAX_DRAIN_BYTES
      && ValidTrailers(trailers)
  }

  function Fields(r: Response): seq<Field> {
    r.before + FramingField(r.body) + r.after
  }

  /** A head that the reader reads to its end, whatever framing its fields announce. */
  predicate ValidHead(r: Response) {
    r.version != "" && NoSpace(r.version) && IsLineText(r.version) && IsLineText(r.reason)
    && r.status <= 65535
    && ValidFields(Fields(r)) && |HeadText(r)| <= LINE_LIMIT
  }

  predicate ValidTrailers(trailers: seq<string>) {
    forall i | 0 <= i < |trailers| :: IsLineText(trailers[i]) && |trailers[i]| + |CRLF| <= LINE_LIMIT
  }

  /** A valid head, exactly one framing and a body that the drain accepts. */
  predicate Framed(r: Response) {
    ValidHead(r) && FramesNothing(r.before) && FramesNothing(r.after) && ValidBody(r.body)
  }

  /** And no trailer fields. */
  predicate WellFramed(r: Response) {
    Framed(r) && HasNoTrailers(r.body)
  }

  predicate HasNoTrailers(body: Body) {
    body.Chunked? ==> body.trailers == []
  }

  // ---------- Printing ----------

  function FieldLine(f: Field): string {
    f.name + ":" + (f.before + f.text + f.after)
  }

  function FieldLines(fields: seq<Field>): seq<string> {
    if fields == [] then [] else [FieldLine(fields[0])] + FieldLines(fields[1..])
  }

  function StatusLine(r: Response): string {
    r.version + " " + Decimal(r.status) + " " + r.reason
  }

  /** Each line ended by CR LF, and an empty line after the last. */
  function Lines(lines: seq<string>): string {
    if lines == [] then CRLF else lines[0] + CRLF + Lines(lines[1..])
  }

  function HeadLines(r: Response): seq<string> {
    [StatusLine(r)] + FieldLines(Fields(r))
  }

  function HeadText(r: Response): string {
    Lines(HeadLines(r))
  }

  function SizeLine(c: Chunk): string {
    c.size + c.gap + c.extension + CRLF
  }

  function ChunksText(chunks: seq<Chunk>): string {
    if chunks == [] then ""
    else SizeLine(chunks[0]) + (chunks[0].data + CRLF) + ChunksText(chunks[1..])
  }

  function BodyText(body: Body): string {
    match body
    case NoBody => ""
    case Sized(_, data) => data
    case Chunked(_, chunks, last, trailers) => ChunkedText(chunks, last, trailers)
  }

  /** The zero chunk is followed by any trailer fields and an empty line. */
  function ChunkedText(chunks: seq<Chunk>, last: Chunk, trailers: seq<string>): string {
    ChunksText(chunks) + (SizeLine(last) + Lines(trailers))
  }

  function ResponseText(r: Response): string {
    HeadText(r) + BodyText(r.body)
  }

  /** The fields as the reader reports them. */
  function Reported(fields: seq<Field>): Headers {
    if fields == [] then [] else [(ToLower(fields[0].name), fields[0].text)] + Reported(fields[1..])
  }

  lemma ThreeLines(a: string, b: string, c: string)
    ensures Lines([a, b, c]) == a + CRLF + (b + CRLF) + (c + CRLF) + "" + CRLF
  {
    assert [a, b, c][1..] == [b, c] && [b, c][1..] == [c] && [c][1..] == [];
    assert Lines([c]) == c + CRLF + CRLF;
    assert Lines([b, c]) == b + CRLF + (c + CRLF + CRLF);
    assert Lines([a, b, c]) == a + CRLF + (b + CRLF + (c + CRLF + CRLF));
  }

  lemma FourLines(a: string, b: string, c: string, d: string)
    ensures Lines([a, b, c] + [d]) == a + CRLF + (b + CRLF) + (c + CRLF) + (d + CRLF) + CRLF
  {
    var lines := [a, b, c] + [d];
    assert lines[1..] == [b, c, d] && [b, c, d][1..] == [c, d] && [c, d][1..] == [d] && [d][1..] == [];
    assert Lines([d]) == d + CRLF + CRLF;
    assert Lines([c, d]) == c + CRLF + (d + CRLF + CRLF);
    assert Lines([b, c, d]) == b + CRLF + (c + CRLF + (d + CRLF + CRLF));
    assert Lines(lines) == a + CRLF + (b + CRLF + (c + CRLF + (d + CRLF + CRLF)));
  }

  // ---------- The end of the head is found ----------

  predicate IsHeadLine(line: string) {
    line != "" && CR !in line
  }

  predicate AreHeadLines(lines: seq<string>) {
    forall i | 0 <= i < |lines| :: IsHeadLine(lines[i])
  }

  /** No blank line comes before the one that ends the head. */
  lemma {:induction false} NoEarlierEnd(lines: seq<string>, rest: string, k: nat)
    requires lines != [] && AreHeadLines(lines) && k + |END_OF_HEAD| < |Lines(lines)|
    ensures !OccursAt(Lines(lines) + rest, END_OF_HEAD, k)
    decreases |lines|
  {
    var line, tail := lines[0], Lines(lines[1..]);
    var s := Lines(lines) + rest;
    assert s == line + (CRLF + (tail + rest));
    if k < |line| {
      assert s[k] == line[k];
      assert s[k..][0] == s[k];
    } else if k == |line| {
      assert s[k + 2] == (tail + rest)[0];
      assert s[k..][2] == s[k + 2];
      assert lines[1..] != [] && tail[0] == lines[1][0];
    } else if k == |line| + 1 {
      assert s[k] == LF;
      assert s[k..][0] == s[k];
    } else {
      var j := k - |line| - 2;
      assert s[k..] == (tail + rest)[j..];
      if lines[1..] != [] {
        NoEarlierEnd(lines[1..], rest, j);
      }
    }
  }

  lemma {:induction false} EndsWithBlankLine(lines: seq<string>)
    requires lines != []
    ensures |Lines(lines)| >= |END_OF_HEAD| && EndsWith(Lines(lines), END_OF_HEAD)
    decreases |lines|
  {
    var s, tail := Lines(lines), Lines(lines[1..]);
    if |lines| == 1 {
      assert s == lines[0] + END_OF_HEAD;
    } else {
      EndsWithBlankLine(lines[1..]);
      assert s == (lines[0] + CRLF) + tail;
    }
  }

  lemma HeadIsFound(lines: seq<string>, rest: string)
    requires lines != [] && AreHeadLines(lines) && |Lines(lines)| <= LINE_LIMIT
    ensures Terminated(Lines(lines) + rest, END_OF_HEAD) == Some(|Lines(lines)|)
  {
    HeadEnds(lines, rest);
  }

  /** A head ends at its empty line, if that is within the limit. */
  lemma HeadEnds(lines: seq<string>, rest: string)
    requires lines != [] && AreHeadLines(lines)
    ensures Terminated(Lines(lines) + rest, END_OF_HEAD)
         == if |Lines(lines)| <= LINE_LIMIT then Some(|Lines(lines)|) else None
  {
    var head := Lines(lines);
    var s, off := head + rest, |head| - |END_OF_HEAD|;
    EndsWithBlankLine(lines);
    assert s[..|head|] == head;
    EndsWithOccurs(s, |head|, END_OF_HEAD);
    forall k: nat | k < off
      ensures !OccursAt(s, END_OF_HEAD, k)
    {
      NoEarlierEnd(lines, rest, k);
    }
    LeftmostIsFound(s, END_OF_HEAD, off);
  }

  // ---------- The head is parsed ----------

  lemma {:induction false} SplitHead(lines: seq<string>)
    requires AreHeadLines(lines)
    ensures SplitLines(Lines(lines)) == lines + ["", ""]
    decreases |lines|
  {
    hide SplitLines;
    BlankLineSplits();
    if lines == [] {
      assert lines + ["", ""] == ["", ""];
    } else {
      SplitLinesAt(lines[0], Lines(lines[1..]));
      SplitHead(lines[1..]);
      assert [lines[0]] + (lines[1..] + ["", ""]) == lines + ["", ""];
    }
  }

  lemma BlankLineSplits()
    ensures SplitLines(CRLF) == ["", ""]
  {
    assert CRLF[2..] == "";
  }

  lemma FieldIsReported(f: Field)
    requires ValidField(f)
    ensures HeaderOfLine(FieldLine(f)) == [(ToLower(f.name), f.text)]
  {
    SplitOnceAt(f.name, ':', f.before + f.text + f.after);
    TrimTrimmed(f.name);
    TrimPadded(f.before, f.text, f.after);
  }

  lemma {:induction false} FieldsAreReported(fields: seq<Field>)
    requires ValidFields(fields)
    ensures HeadersOfLines(FieldLines(fields) + ["", ""]) == Reported(fields)
    decreases |fields|
  {
    var lines := FieldLines(fields) + ["", ""];
    if fields == [] {
      BlankLinesReportNothing();
      assert lines == ["", ""];
    } else {
      hide HeaderOfLine, FieldLine, ValidField;
      FieldIsReported(fields[0]);
      FieldsAreReported(fields[1..]);
      assert lines[0] == FieldLine(fields[0]) && lines[1..] == FieldLines(fields[1..]) + ["", ""];
    }
  }

  lemma BlankLinesReportNothing()
    ensures HeadersOfLines(["", ""]) == []
  {
    assert ["", ""][1..] == [""] && [""][1..] == [];
    assert HeaderOfLine("") == [];
  }

  lemma StatusIsParsed(r: Response)
    requires r.version != "" && NoSpace(r.version) && r.status <= MAX_U16
    ensures StatusOfLine(StatusLine(r)) == r.status
  {
    var number := Decimal(r.status);
    var tail := number + (" " + r.reason);
    assert StatusLine(r) == r.version + (" " + tail);
    FirstWordOf(r.version, " " + tail);
    DecimalHasNoSpace(r.status);
    assert tail[0] == number[0];
    FirstWordOf(number, " " + r.reason);
    SpaceIsSkipped(tail);
    ParseDecimal(r.status, MAX_U16);
  }

  lemma SpaceIsSkipped(s: string)
    requires s != "" && !IsSpace(s[0])
    ensures FirstWord(" " + s) == FirstWord(s)
  {
    TrimStartSkips(" ", s);
    TrimStartSkips("", s);
    assert "" + s == s;
  }

  lemma FieldLinesAreHeadLines(fields: seq<Field>)
    requires ValidFields(fields)
    ensures AreHeadLines(FieldLines(fields))
    decreases |fields|
  {
    if fields != [] {
      FieldLinesAreHeadLines(fields[1..]);
    }
  }

  lemma StatusLineIsHeadLine(r: Response)
    requires r.version != "" && IsLineText(r.version) && IsLineText(r.reason)
    ensures IsHeadLine(StatusLine(r))
  {
    DecimalDigits(r.status);
    assert forall c | IsDigit(c, 10) :: c != CR;
  }

  /** Whatever follows it, the head is read to its end and no further, and reported exactly. */
  lemma HeadIsRead(r: Response, rest: string, end: End)
    requires ValidHead(r)
    ensures HeadRead(HeadText(r) + rest, end) == Read(Ok((r.status, Reported(Fields(r)))), rest)
  {
    hide StatusOfLine, HeaderOfLine, StatusLine, FieldLine, Terminated;
    var lines := HeadLines(r);
    StatusLineIsHeadLine(r);
    FieldLinesAreHeadLines(Fields(r));
    HeadIsFound(lines, rest);
    SplitHead(lines);
    StatusIsParsed(r);
    FieldsAreReported(Fields(r));
    assert (lines + ["", ""])[1..] == FieldLines(Fields(r)) + ["", ""];
    assert (HeadText(r) + rest)[..|HeadText(r)|] == HeadText(r);
    assert (HeadText(r) + rest)[|HeadText(r)|..] == rest;
  }

  // ---------- The framing is recognised ----------

  lemma {:induction false} NotReported(fields: seq<Field>, name: string)
    requires forall i | 0 <= i < |fields| :: !IsNamed(fields[i], name)
    ensures HeaderNamed(Reported(fields), name) == None
  {
    if fields != [] {
      NotReported(fields[1..], name);
      assert IsNamed(fields[0], name) == (ToLower(fields[0].name) == name);
    }
  }

  lemma {:induction false} ReportedAmong(before: seq<Field>, f: Field, after: seq<Field>, name: string)
    requires forall i | 0 <= i < |before| :: !IsNamed(before[i], name)
    ensures IsNamed(f, name) ==> HeaderNamed(Reported(before + [f] + after), name) == Some(f.text)
    ensures !IsNamed(f, name) && (forall i | 0 <= i < |after| :: !IsNamed(after[i], name))
            ==> HeaderNamed(Reported(before + [f] + after), name) == None
  {
    var fields := before + [f] + after;
    if before == [] {
      assert fields[0] == f && fields[1..] == after;
      if !IsNamed(f, name) && forall i | 0 <= i < |after| :: !IsNamed(after[i], name) {
        NotReported(after, name);
      }
    } else {
      assert fields[0] == before[0] && fields[1..] == before[1..] + [f] + after;
      assert !IsNamed(before[0], name);
      ReportedAmong(before[1..], f, after, name);
    }
  }

  lemma FramingIsSeen(r: Response)
    requires FramesNothing(r.before) && FramesNothing(r.after) && ValidBody(r.body)
    ensures var headers := Reported(Fields(r));
            match r.body
            case NoBody => ContentLength(headers) == None && !IsChunked(headers)
            case Sized(_, data) => ContentLength(headers) == Some(|data|)
            case Chunked(_, _, _, _) => ContentLength(headers) == None && IsChunked(headers)
  {
    match r.body
    case NoBody =>
      assert Fields(r) == r.before + r.after;
      NotReported(r.before + r.after, "content-length");
      NotReported(r.before + r.after, "transfer-encoding");
    case Sized(f, data) =>
      ReportedAmong(r.before, f, r.after, "content-length");
    case Chunked(f, _, _, _) =>
      ReportedAmong(r.before, f, r.after, "content-length");
      ReportedAmong(r.before, f, r.after, "transfer-encoding");
  }

  // ---------- Draining undoes chunking ----------

  lemma LineIsRead(line: string, rest: string, end: End)
    requires LF !in line && |line| + 1 <= LINE_LIMIT
    ensures LineRead(line + "\n" + rest, end) == Read(Ok(line + "\n"), rest)
  {
    var s := line + "\n" + rest;
    assert s[..|line| + 1] == line + "\n" && s[|line| + 1..] == rest;
    EndsWithOccurs(s, |line| + 1, "\n");
    forall k: nat | k < |line|
      ensures !OccursAt(s, "\n", k)
    {
      assert s[k] == line[k];
      assert s[k..][0] == s[k];
    }
    LeftmostIsFound(s, "\n", |line|);
  }

  lemma SizeLineIsRead(c: Chunk, rest: string, end: End)
    requires ValidSizeLine(c)
    ensures LineRead(SizeLine(c) + rest, end) == Read(Ok(SizeLine(c)), rest)
  {
    var line := c.size + c.gap + c.extension + "\r";
    assert forall d | IsDigit(d, 16) :: d != LF;
    assert forall i | 0 <= i < |c.size| :: IsDigit(c.size[i], 16);
    LineIsRead(line, rest, end);
    assert line + "\n" == SizeLine(c);
  }

  /** Trimming the end of a text never reaches past its last visible character. */
  lemma {:induction false} TrimEndKeeps(s: string, more: string)
    requires s != "" && !IsSpace(s[|s| - 1])
    ensures s <= TrimEnd(s + more)
  {
    var all := s + more;
    if more == "" {
      assert all == s;
    } else if IsSpace(more[|more| - 1]) {
      assert all[..|all| - 1] == s + more[..|more| - 1];
      TrimEndKeeps(s, more[..|more| - 1]);
    }
  }

  lemma SizeIsParsed(c: Chunk)
    requires ValidSizeLine(c)
    ensures ChunkSize(SizeLine(c))
         == if NumberOf(c.size, 16) <= MAX_U64 then Some(NumberOf(c.size, 16)) else None
  {
    DigitsAreVisible(c.size);
    SizeFieldIs(c);
    hide Trim;
  }

  lemma DigitsAreVisible(digits: string)
    requires digits != "" && AllDigits(digits, 16)
    ensures Trimmed(digits) && ';' !in digits && digits[0] != '+'
  {
    assert IsDigit(digits[0], 16) && IsDigit(digits[|digits| - 1], 16);
    assert forall d | IsDigit(d, 16) :: !IsSpace(d) && d != ';' && d != '+';
    assert forall i | 0 <= i < |digits| :: IsDigit(digits[i], 16);
  }

  /** The text before the first semicolon, trimmed, is the size. */
  lemma SizeFieldIs(c: Chunk)
    requires ValidSizeLine(c)
    ensures Trim(Split(Trim(SizeLine(c)), ';')[0]) == c.size
  {
    if c.extension == "" {
      PlainSizeField(c);
    } else {
      ExtendedSizeField(c);
    }
  }

  lemma PlainSizeField(c: Chunk)
    requires ValidSizeLine(c) && c.extension == ""
    ensures Trim(Split(Trim(SizeLine(c)), ';')[0]) == c.size
  {
    hide TrimStart, TrimEnd, Trim, Split;
    DigitsAreVisible(c.size);
    assert SizeLine(c) == "" + c.size + (c.gap + CRLF);
    TrimPadded("", c.size, c.gap + CRLF);
    SplitLast(c.size, ';');
    TrimTrimmed(c.size);
  }

  lemma ExtendedSizeField(c: Chunk)
    requires ValidSizeLine(c) && c.extension != ""
    ensures Trim(Split(Trim(SizeLine(c)), ';')[0]) == c.size
  {
    var line := SizeLine(c);
    DigitsAreVisible(c.size);
    TrimStartSkips("", line);
    assert line[0] == c.size[0] && "" + line == line;
    hide TrimStart, TrimEnd, Split;
    var start, more := c.size + c.gap + ";", c.extension[1..] + CRLF;
    assert line == start + more;
    TrimEndKeeps(start, more);
    var t := TrimEnd(line);
    SpaceHasNoSemicolon(c.gap);
    assert t == (c.size + c.gap) + [';'] + t[|start|..];
    SplitPiece(c.size + c.gap, ';', t[|start|..]);
    assert "" + c.size + c.gap == c.size + c.gap;
    TrimPadded("", c.size, c.gap);
  }

  lemma SpaceHasNoSemicolon(s: string)
    requires AllSpace(s)
    ensures ';' !in s
  {
  }

  lemma ChunkIsSkipped(data: string, rest: string, end: End)
    requires |data| <= MAX_DRAIN_BYTES
    ensures ChunkSkipped(data + CRLF + rest, end, |data|) == Read(Ok(()), rest)
  {
    var s := data + CRLF + rest;
    LineIsRead("\r", rest, end);
    assert "\r" + "\n" == CRLF;
    assert s[|data|..] == CRLF + rest;
  }

  /** Over every list of chunks, with every spelling of the sizes and every extension: the drain
      goes past the chunks and the zero chunk and then reads one line, if the data fits the
      budget; and it fails if the data does not. */
  lemma {:induction false} DrainUndoesChunking(chunks: seq<Chunk>, last: Chunk, tail: string, end: End, total: nat)
    requires ValidChunks(chunks) && ValidLast(last) && total <= MAX_DRAIN_BYTES
    ensures var drained := ChunksDrained(ChunksText(chunks) + (SizeLine(last) + tail), end, total);
            if total + TotalData(chunks) <= MAX_DRAIN_BYTES
            then drained == LineSkipped(tail, end)
            else drained.result.Err?
    decreases |chunks|
  {
    hide LineRead, ChunkSize, ChunkSkipped, SizeLine, ValidSizeLine;
    if chunks == [] {
      assert ChunksText(chunks) + (SizeLine(last) + tail) == SizeLine(last) + tail;
      SizeLineIsRead(last, tail, end);
      SizeIsParsed(last);
    } else {
      var c, size := chunks[0], |chunks[0].data|;
      assert ValidChunk(c);
      var others := ChunksText(chunks[1..]) + (SizeLine(last) + tail);
      var after := c.data + CRLF + others;
      assert ChunksText(chunks) + (SizeLine(last) + tail) == SizeLine(c) + after;
      SizeLineIsRead(c, after, end);
      if total + size <= MAX_DRAIN_BYTES {
        SizeIsParsed(c);
        ChunkIsSkipped(c.data, others, end);
        DrainStep(SizeLine(c) + after, end, total, SizeLine(c), after, size, others);
        DrainUndoesChunking(chunks[1..], last, tail, end, total + size);
      } else {
        OversizedChunk(c, after, end, total);
      }
    }
  }

  lemma OversizedChunk(c: Chunk, after: string, end: End, total: nat)
    requires ValidChunk(c) && total <= MAX_DRAIN_BYTES < total + |c.data|
    ensures ChunksDrained(SizeLine(c) + after, end, total).result.Err?
  {
    hide LineRead, ChunkSize;
    SizeLineIsRead(c, after, end);
    SizeIsParsed(c);
  }

  /** Pieces of data as an ordinary encoder writes them, with hexadecimal sizes and nothing else. */
  function Encoded(pieces: seq<string>, digits: string): string
    requires |digits| == 16
  {
    if pieces == [] then "0" + CRLF + CRLF
    else Hex(|pieces[0]|, digits) + CRLF + (pieces[0] + CRLF) + Encoded(pieces[1..], digits)
  }

  function TotalLength(pieces: seq<string>): nat {
    if pieces == [] then 0 else |pieces[0]| + TotalLength(pieces[1..])
  }

  function ChunksOf(pieces: seq<string>, digits: string): seq<Chunk>
    requires |digits| == 16
  {
    if pieces == [] then [] else [Chunk(Hex(|pieces[0]|, digits), "", "", pieces[0])] + ChunksOf(pieces[1..], digits)
  }

  lemma {:induction false} HexIsShort(n: nat, digits: string)
    requires |digits| == 16
    ensures |Hex(n, digits)| <= n + 1
  {
    if n >= 16 {
      HexIsShort(n / 16, digits);
    }
  }

  lemma HexSize(data: string, digits: string)
    requires digits == DIGITS || digits == CAPITAL_DIGITS
    requires data != "" && |data| <= MAX_DRAIN_BYTES
    ensures ValidChunk(Chunk(Hex(|data|, digits), "", "", data))
    ensures SizeLine(Chunk(Hex(|data|, digits), "", "", data)) == Hex(|data|, digits) + CRLF
  {
    HexDigits(|data|, digits);
    HexFits(|data|, digits);
    assert Hex(|data|, digits) + "" + "" + CRLF == Hex(|data|, digits) + CRLF;
  }

  lemma HexFits(n: nat, digits: string)
    requires |digits| == 16 && n <= MAX_DRAIN_BYTES
    ensures |Hex(n, digits)| <= 65535
  {
    var m := n / 16;
    HexIsShort(m / 16, digits);
  }

  lemma {:induction false} EncodedIsChunked(pieces: seq<string>, digits: string)
    requires digits == DIGITS || digits == CAPITAL_DIGITS
    requires forall i | 0 <= i < |pieces| :: pieces[i] != ""
    requires TotalLength(pieces) <= MAX_DRAIN_BYTES
    ensures var chunks := ChunksOf(pieces, digits);
            ValidChunks(chunks) && TotalData(chunks) == TotalLength(pieces)
            && Encoded(pieces, digits) == ChunkedText(chunks, Chunk("0", "", "", ""), [])
  {
    hide ValidChunk, SizeLine, Hex, ValidSizeLine;
    var chunks, last := ChunksOf(pieces, digits), Chunk("0", "", "", "");
    LastSize();
    assert Lines([]) == CRLF;
    if pieces == [] {
      assert "" + ("0" + CRLF + CRLF) == "0" + CRLF + CRLF;
    } else {
      HexSize(pieces[0], digits);
      EncodedIsChunked(pieces[1..], digits);
      assert chunks[1..] == ChunksOf(pieces[1..], digits);
      var first, tail := SizeLine(chunks[0]) + (pieces[0] + CRLF), SizeLine(last) + CRLF;
      assert first + ChunksText(chunks[1..]) + tail == first + (ChunksText(chunks[1..]) + tail);
    }
  }

  lemma LastSize()
    ensures SizeLine(Chunk("0", "", "", "")) == "0" + CRLF && ValidLast(Chunk("0", "", "", ""))
  {
    assert "0"[..0] == "";
  }

  /** Draining undoes ordinary chunking: whatever the data and the letter case of the sizes, exactly the
      encoded text is consumed. */
  lemma EncodedIsDrained(pieces: seq<string>, digits: string, rest: string, end: End)
    requires digits == DIGITS || digits == CAPITAL_DIGITS
    requires forall i | 0 <= i < |pieces| :: pieces[i] != ""
    requires TotalLength(pieces) <= MAX_DRAIN_BYTES
    ensures ChunksDrained(Encoded(pieces, digits) + rest, end, 0) == Read(Ok(()), rest)
  {
    hide ChunksDrained, ChunkedText, Encoded;
    EncodedIsChunked(pieces, digits);
    LastSize();
    SynchronisedIffNoTrailers(ChunksOf(pieces, digits), Chunk("0", "", "", ""), [], rest, end);
  }

  /** Only one line is read after the zero chunk, so the reader ends up exactly after the body if
      and only if the upstream sends no trailer fields. */
  lemma SynchronisedIffNoTrailers(
    chunks: seq<Chunk>, last: Chunk, trailers: seq<string>, rest: string, end: End)
    requires ValidChunks(chunks) && ValidLast(last) && TotalData(chunks) <= MAX_DRAIN_BYTES
    requires ValidTrailers(trailers)
    ensures var drained := ChunksDrained(ChunkedText(chunks, last, trailers) + rest, end, 0);
            drained.result == Ok(())
            && (trailers != [] ==> drained.rest == Lines(trailers[1..]) + rest)
            && (drained.rest == rest <==> trailers == [])
  {
    hide ChunksDrained, LineRead;
    var tail := Lines(trailers) + rest;
    assert ChunkedText(chunks, last, trailers) + rest == ChunksText(chunks) + (SizeLine(last) + tail);
    DrainUndoesChunking(chunks, last, tail, end, 0);
    if trailers == [] {
      LineIsRead("\r", rest, end);
      assert tail == "\r" + "\n" + rest;
    } else {
      var line, after := trailers[0] + "\r", Lines(trailers[1..]) + rest;
      LineIsRead(line, after, end);
      assert tail == line + "\n" + after;
      LinesAreNotEmpty(trailers[1..]);
    }
  }

  lemma LinesAreNotEmpty(lines: seq<string>)
    ensures |Lines(lines)| >= 2
  {
  }

  // ---------- One whole response ----------

  /** What the drain leaves of a body: the trailer fields after the first, and the empty line. */
  function Leftover(body: Body): string {
    if HasNoTrailers(body) then "" else Lines(body.trailers[1..])
  }

  lemma BodyIsDrained(r: Response, rest: string, end: End)
    requires Framed(r)
    ensures BodyDrained(BodyText(r.body) + rest, end, Reported(Fields(r))) == Read(Ok(()), Leftover(r.body) + rest)
  {
    hide ChunksDrained, ContentLength, IsChunked, HeadText;
    FramingIsSeen(r);
    match r.body
    case NoBody =>
      assert "" + rest == rest;
    case Sized(_, data) =>
      assert (data + rest)[|data|..] == rest;
    case Chunked(_, chunks, last, trailers) =>
      SynchronisedIffNoTrailers(chunks, last, trailers, rest, end);
  }

  /** A response with one framing is read as exactly itself, and nothing after it is consumed; nothing of
      it is left either, if and only if it has no trailer fields. */
  lemma ResponseIsConsumed(r: Response, rest: string, end: End)
    requires Framed(r)
    ensures var head := HeadRead(ResponseText(r) + rest, end);
            var drained := BodyDrained(head.rest, end, Reported(Fields(r)));
            head.result == Ok((r.status, Reported(Fields(r))))
            && drained == Read(Ok(()), Leftover(r.body) + rest)
            && (drained.rest == rest <==> HasNoTrailers(r.body))
  {
    hide HeadRead, BodyDrained, HeadText, BodyText;
    assert ResponseText(r) + rest == HeadText(r) + (BodyText(r.body) + rest);
    HeadIsRead(r, BodyText(r.body) + rest, end);
    BodyIsDrained(r, rest, end);
    LeftoverIsVisible(r.body, rest);
  }

  lemma LeftoverIsVisible(body: Body, rest: string)
    ensures Leftover(body) + rest == rest <==> HasNoTrailers(body)
  {
    if !HasNoTrailers(body) {
      LinesAreNotEmpty(body.trailers[1..]);
      assert |Leftover(body) + rest| > |rest|;
    } else {
      assert "" + rest == rest;
    }
  }

  // ---------- A response framed twice ----------

  /** A chunked response with a Content-Length as its i-th field, among any other fields. */
  predicate DoublyFramed(r: Response, i: nat) {
    ValidHead(r) && r.body.Chunked? && ValidBody(r.body) && HasNoTrailers(r.body)
    && (forall j | 0 <= j < |r.before| :: !IsNamed(r.before[j], "transfer-encoding"))
    && i < |Fields(r)| && IsNamed(Fields(r)[i], "content-length")
    && forall j | 0 <= j < i :: !IsNamed(Fields(r)[j], "content-length")
  }

  /** What the declared length is read as, if it is a number. */
  function Declared(f: Field): Option<nat> {
    ParseUnsigned(f.text, 10, MAX_U64)
  }

  /** Any readable length is used even beside a chunked coding, so a response framed twice is consumed to
      its end if and only if the length is unreadable or is that of the chunked text, within the
      budget. */
  lemma LengthWinsOverChunks(r: Response, i: nat, rest: string, end: End)
    requires DoublyFramed(r, i)
    ensures var head := HeadRead(ResponseText(r) + rest, end);
            var declared := Declared(Fields(r)[i]);
            head.result == Ok((r.status, Reported(Fields(r))))
            && (BodyDrained(head.rest, end, Reported(Fields(r))) == Read(Ok(()), rest) <==>
                  declared.None? || declared.value == |BodyText(r.body)| <= MAX_DRAIN_BYTES)
  {
    hide HeadRead, BodyDrained, HeadText, BodyText;
    var body := BodyText(r.body);
    assert ResponseText(r) + rest == HeadText(r) + (body + rest);
    HeadIsRead(r, body + rest, end);
    BothAreSeen(r, i);
    if Declared(Fields(r)[i]).Some? {
      LengthDecides(body, rest, end, Reported(Fields(r)));
    } else {
      CodingDecides(r, rest, end);
    }
  }

  lemma BothAreSeen(r: Response, i: nat)
    requires DoublyFramed(r, i)
    ensures ContentLength(Reported(Fields(r))) == Declared(Fields(r)[i]) && IsChunked(Reported(Fields(r)))
  {
    var fields := Fields(r);
    assert fields == fields[..i] + [fields[i]] + fields[i + 1..];
    ReportedAmong(fields[..i], fields[i], fields[i + 1..], "content-length");
    ReportedAmong(r.before, r.body.field, r.after, "transfer-encoding");
  }

  lemma LengthDecides(body: string, rest: string, end: End, headers: Headers)
    requires ContentLength(headers).Some?
    ensures BodyDrained(body + rest, end, headers) == Read(Ok(()), rest)
            <==> ContentLength(headers).value == |body| <= MAX_DRAIN_BYTES
  {
    assert (body + rest)[|body|..] == rest;
  }

  lemma CodingDecides(r: Response, rest: string, end: End)
    requires r.body.Chunked? && ValidBody(r.body) && HasNoTrailers(r.body)
    requires ContentLength(Reported(Fields(r))) == None && IsChunked(Reported(Fields(r)))
    ensures BodyDrained(BodyText(r.body) + rest, end, Reported(Fields(r))) == Read(Ok(()), rest)
  {
    hide ChunksDrained, ContentLength, IsChunked;
    SynchronisedIffNoTrailers(r.body.chunks, r.body.last, [], rest, end);
  }

  /** For instance a declared length of 0 beside one chunk: the drain consumes nothing, and the next head
      is read out of the chunk, with status 0. */
  lemma ChunkIsTakenForAHead(end: End, rest: string)
    ensures var headers := [("content-length", "0"), ("transfer-encoding", "chunked")];
            var body := "1\r\na\r\n0\r\n\r\n";
            body == ChunkedText([Chunk("1", "", "", "a")], Chunk("0", "", "", ""), [])
            && BodyDrained(body + rest, end, headers) == Read(Ok(()), body + rest)
            && HeadRead(body + rest, end) == Read(Ok((0, [])), rest)
  {
    var chunks, last := [Chunk("1", "", "", "a")], Chunk("0", "", "", "");
    var body := ChunkedText(chunks, last, []);
    var lines := ["1", "a", "0"];
    var headers := [("content-length", "0"), ("transfer-encoding", "chunked")];
    ZeroIsDeclared(headers);
    SampleText(chunks, last, lines);
    HeadIsFound(lines, rest);
    SplitHead(lines);
    SampleHead(lines + ["", ""]);
    assert (body + rest)[..|body|] == body && (body + rest)[|body|..] == rest;
  }

  lemma ZeroIsDeclared(headers: Headers)
    requires headers == [("content-length", "0"), ("transfer-encoding", "chunked")]
    ensures ContentLength(headers) == Some(0)
  {
    assert Decimal(0) == "0";
    ParseDecimal(0, MAX_U64);
  }

  lemma SampleText(chunks: seq<Chunk>, last: Chunk, lines: seq<string>)
    requires chunks == [Chunk("1", "", "", "a")] && last == Chunk("0", "", "", "") && lines == ["1", "a", "0"]
    ensures ChunkedText(chunks, last, []) == Lines(lines) == "1\r\na\r\n0\r\n\r\n" && AreHeadLines(lines)
  {
    ThreeLines("1", "a", "0");
    assert chunks[1..] == [];
    assert Lines([]) == CRLF;
    assert SizeLine(chunks[0]) == "1" + CRLF && SizeLine(last) == "0" + CRLF;
    assert ChunksText(chunks) == "1" + CRLF + ("a" + CRLF) + "";
  }

  lemma SampleHead(lines: seq<string>)
    requires lines == ["1", "a", "0"] + ["", ""]
    ensures StatusOfLine(lines[0]) == 0 && HeadersOfLines(lines[1..]) == []
  {
    var rest := lines[1..];
    assert rest == ["a", "0", "", ""] && rest[1..] == ["0", "", ""] && rest[1..][1..] == ["", ""];
    BlankLinesReportNothing();
    NoColonNoField('a');
    NoColonNoField('0');
    assert HeadersOfLines(["0", "", ""]) == [] && HeadersOfLines(rest) == [];
    FirstWordOf("1", "");
    assert "1" + "" == "1" && TrimStart("") == "";
  }

  lemma NoColonNoField(c: char)
    requires c != ':'
    ensures HeaderOfLine([c]) == []
  {
    assert [c][1..] == "";
    assert SplitOnce([c][1..], ':') == None;
  }
}

/** Raw HTTP/1.1 reading from an upstream socket: heads one byte at a time, bodies drained by
    their framing. Each reader is specified by a function on the bytes still to come. */
module Wire {
  import opened Results
  import opened Text
  import opened UpstreamAuth

  const MAX_HEAD_BYTES: nat := 64 * 1024
  const MAX_DRAIN_BYTES: nat := 1024 * 1024
  const DISCARD_BUFFER: nat := 8192
  const END_OF_HEAD: string := "\r\n\r\n"

  /** How the peer's byte stream ends: a close, or a transport error. */
  datatype End = Closed | Broken

  datatype IoError =
    | Transport
    | ClosedInHead
    | HeadTooLarge
    | ClosedInBody
    | BodyTooLarge
    | InvalidChunkSize
    | LineTooLong
    | ClosedBeforeResponse

  type Head = (nat, Headers)

  /** The result of reading, and the bytes left unread. */
  datatype Read<+T> = Read(result: Result<T, IoError>, rest: string)

  // ---------- Specification ----------

  function EndError(end: End, closed: IoError): IoError {
    if end.Broken? then Transport else closed
  }

  function HeaderOfLine(line: string): Headers {
    match SplitOnce(line, ':')
    case Some((k, v)) => [(ToLower(Trim(k)), Trim(v))]
    case None => []
  }

  function HeadersOfLines(lines: seq<string>): Headers {
    if lines == [] then [] else HeaderOfLine(lines[0]) + HeadersOfLines(lines[1..])
  }

  function StatusOfLine(line: string): nat {
    match ParseUnsigned(FirstWord(AfterFirstWord(line)), 10, MAX_U16)
    case Some(status) => status
    case None => 0
  }

  function ParsedHead(text: string): Head {
    var lines := SplitLines(text);
    (StatusOfLine(lines[0]), HeadersOfLines(lines[1..]))
  }

  /** Reading one byte at a time up to `terminator`, which is tested before the size limit. */
  function Terminated(s: string, terminator: string): (r: Option<nat>)
    ensures r.Some? ==> r.value <= |s|
  {
    FindIsLeftmost(s, terminator);
    match Find(s, terminator)
    case Some(off) => if off + |terminator| <= MAX_HEAD_BYTES + 1 then Some(off + |terminator|) else None
    case None => None
  }

  function HeadRead(s: string, end: End): Read<Head> {
    match Terminated(s, END_OF_HEAD)
    case Some(n) => Read(Ok(ParsedHead(s[..n])), s[n..])
    case None =>
      if |s| > MAX_HEAD_BYTES then Read(Err(HeadTooLarge), s[MAX_HEAD_BYTES + 1..])
      else Read(Err(EndError(end, ClosedInHead)), "")
  }

  function LineRead(s: string, end: End): Read<string> {
    match Terminated(s, "\n")
    case Some(n) => Read(Ok(s[..n]), s[n..])
    case None =>
      if |s| > MAX_HEAD_BYTES then Read(Err(LineTooLong), s[MAX_HEAD_BYTES + 1..])
      else Read(if end.Closed? then Ok(s) else Err(Transport), "")
  }

  function Discarded(s: string, end: End, len: nat): Read<()> {
    if len > MAX_DRAIN_BYTES then Read(Err(BodyTooLarge), s)
    else if len <= |s| then Read(Ok(()), s[len..])
    else Read(Err(EndError(end, ClosedInBody)), "")
  }

  function ChunkSize(line: string): Option<nat> {
    ParseUnsigned(Trim(Split(Trim(line), ';')[0]), 16, MAX_U64)
  }

  function LineSkipped(s: string, end: End): Read<()> {
    var line := LineRead(s, end);
    Read(if line.result.Ok? then Ok(()) else Err(line.result.error), line.rest)
  }

  /** The data of one chunk and the line end after it. */
  function ChunkSkipped(s: string, end: End, size: nat): Read<()> {
    var data := Discarded(s, end, size);
    if data.result.Err? then data else LineSkipped(data.rest, end)
  }

  function ChunksDrained(s: string, end: End, total: nat): Read<()>
    requires total <= MAX_DRAIN_BYTES
    decreases MAX_DRAIN_BYTES - total
  {
    var line := LineRead(s, end);
    if line.result.Err? then Read(Err(line.result.error), line.rest)
    else
      match ChunkSize(line.result.value)
      case None => Read(Err(InvalidChunkSize), line.rest)
      case Some(size) =>
        if size == 0 then LineSkipped(line.rest, end)
        else if total + size > MAX_DRAIN_BYTES then Read(Err(BodyTooLarge), line.rest)
        else
          var chunk := ChunkSkipped(line.rest, end, size);
          if chunk.result.Err? then chunk else ChunksDrained(chunk.rest, end, total + size)
  }

  function HeaderNamed(headers: Headers, name: string): Option<string> {
    if headers == [] then None
    else if headers[0].0 == name then Some(headers[0].1)
    else HeaderNamed(headers[1..], name)
  }

  function ContentLength(headers: Headers): Option<nat> {
    match HeaderNamed(headers, "content-length")
    case Some(v) => ParseUnsigned(v, 10, MAX_U64)
    case None => None
  }

  predicate IsChunked(headers: Headers) {
    match HeaderNamed(headers, "transfer-encoding")
    case Some(v) => Find(ToLower(v), "chunked").Some?
    case None => false
  }

  function BodyDrained(s: string, end: End, headers: Headers): Read<()> {
    match ContentLength(headers)
    case Some(len) => Discarded(s, end, len)
    case None => if IsChunked(headers) then ChunksDrained(s, end, 0) else Read(Ok(()), s)
  }

  // ---------- The socket and its readers ----------

  /** A connection whose peer sends arbitrary bytes and then closes or breaks, and which accepts
      an arbitrary number of writes before one fails. */
  class Socket {
    var unread: string
    const end: End
    var writes: nat
    /** Every request handed to the transport, the last one possibly without success. */
    var sent: seq<string>

    constructor (incoming: string, end: End, writes: nat)
      ensures unread == incoming && this.end == end && this.writes == writes && sent == []
    {
      unread, this.end, this.writes, sent := incoming, end, writes, [];
    }

    /** One read: some of the bytes to come, at most `limit` of them, or "" at a close. */
    method Recv(limit: nat) returns (r: Result<string, IoError>)
      requires limit > 0
      modifies this`unread
      ensures old(unread) == "" ==> unread == "" && r == if end.Closed? then Ok("") else Err(Transport)
      ensures old(unread) != "" ==> r.Ok? && 0 < |r.value| <= limit && r.value + unread == old(unread)
    {
      if unread == "" {
        return if end.Closed? then Ok("") else Err(Transport);
      }
      var n: nat :| 1 <= n <= limit && n <= |unread|;
      r := Ok(unread[..n]);
      unread := unread[n..];
    }

    method WriteAll(bytes: string) returns (r: Result<(), IoError>)
      modifies this`writes, this`sent
      ensures sent == old(sent) + [bytes]
      ensures r == (if old(writes) == 0 then Err(Transport) else Ok(()))
      ensures writes == if old(writes) == 0 then 0 else old(writes) - 1
    {
      sent := sent + [bytes];
      if writes == 0 {
        return Err(Transport);
      }
      writes := writes - 1;
      r := Ok(());
    }

    /** Looks at the next byte without consuming it. */
    method AwaitResponse() returns (r: Result<(), IoError>)
      ensures r == (if unread == "" then Err(EndError(end, ClosedBeforeResponse)) else Ok(()))
    {
      if unread == "" {
        r := Err(EndError(end, ClosedBeforeResponse));
      } else {
        r := Ok(());
      }
    }
  }

  method ParseHead(text: string) returns (head: Head)
    ensures head == ParsedHead(text)
  {
    var lines := SplitLines(text);
    var headers: Headers := [];
    var i := 1;
    while i < |lines|
      invariant 1 <= i <= |lines|
      invariant headers + HeadersOfLines(lines[i..]) == HeadersOfLines(lines[1..])
    {
      HeadersStep(headers, lines, i);
      if lines[i] != "" {
        match SplitOnce(lines[i], ':') {
          case Some((k, v)) =>
            headers := headers + [(ToLower(Trim(k)), Trim(v))];
          case None =>
        }
      }
      i := i + 1;
    }
    assert lines[i..] == [];
    Reassociate(headers, [], []);
    head := (StatusOfLine(lines[0]), headers);
  }

  lemma HeadersStep(headers: Headers, lines: seq<string>, i: nat)
    requires i < |lines|
    ensures headers + HeadersOfLines(lines[i..])
         == headers + HeaderOfLine(lines[i]) + HeadersOfLines(lines[i + 1..])
    ensures headers + [] == headers
  {
    LinesStep(lines, i);
    Reassociate(headers, HeaderOfLine(lines[i]), HeadersOfLines(lines[i + 1..]));
  }

  lemma LinesStep(lines: seq<string>, i: nat)
    requires i < |lines|
    ensures HeadersOfLines(lines[i..]) == HeaderOfLine(lines[i]) + HeadersOfLines(lines[i + 1..])
  {
    assert lines[i..][0] == lines[i] && lines[i..][1..] == lines[i + 1..];
  }

  lemma Reassociate<T>(a: seq<T>, b: seq<T>, c: seq<T>)
    ensures a + (b + c) == a + b + c && a + [] == a
  {
  }

  /** No prefix of `s` of length at most `n` ends in `terminator`. */
  ghost predicate NotBefore(s: string, terminator: string, n: nat) {
    forall k: nat | OccursAt(s, terminator, k) :: k + |terminator| > n
  }

  /** The bytes read so far end in the terminator exactly when it occurs there in the stream. */
  lemma EndsWithOccurs(s: string, n: nat, terminator: string)
    requires |terminator| <= n <= |s|
    ensures EndsWith(s[..n], terminator) <==> OccursAt(s, terminator, n - |terminator|)
  {
    assert s[n - |terminator|..][..|terminator|] == s[..n][n - |terminator|..];
  }

  /** One more byte: either it completes the terminator or the terminator is still to come. */
  lemma ByteRead(s: string, n: nat, terminator: string)
    requires terminator != "" && 1 <= n <= |s| && n <= MAX_HEAD_BYTES + 1
    requires NotBefore(s, terminator, n - 1)
    ensures EndsWith(s[..n], terminator) ==> Terminated(s, terminator) == Some(n)
    ensures !EndsWith(s[..n], terminator) ==> NotBefore(s, terminator, n)
  {
    if |terminator| <= n {
      EndsWithOccurs(s, n, terminator);
    }
    if EndsWith(s[..n], terminator) {
      LeftmostIsFound(s, terminator, n - |terminator|);
    }
  }

  lemma NotTerminated(s: string, n: nat, terminator: string)
    requires NotBefore(s, terminator, n) && (n == |s| || n == MAX_HEAD_BYTES + 1)
    ensures Terminated(s, terminator) == None
  {
    FindIsLeftmost(s, terminator);
  }

  lemma PrefixGrows(s: string, n: nat, more: string, left: string)
    requires n <= |s| && s[n..] == more + left
    ensures n + |more| <= |s| && s[..n] + more == s[..n + |more|] && left == s[n + |more|..]
    ensures s[..|s|] == s
  {
  }

  /** What is read so far, short of the limit and of the terminator, and what is unread. */
  ghost predicate Reading(s: string, terminator: string, buf: string, unread: string) {
    |buf| <= MAX_HEAD_BYTES && |buf| <= |s| && buf == s[..|buf|] && unread == s[|buf|..]
    && NotBefore(s, terminator, |buf|)
  }

  lemma ReadingStarts(s: string, terminator: string)
    requires terminator != ""
    ensures Reading(s, terminator, "", s)
  {
  }

  lemma ReadingGoesOn(s: string, terminator: string, buf: string, byte: string, unread: string)
    requires terminator != "" && |byte| == 1 && Reading(s, terminator, buf, byte + unread)
    ensures var n := |buf + byte|;
            n <= |s| && buf + byte == s[..n] && unread == s[n..]
            && if EndsWith(buf + byte, terminator) then Terminated(s, terminator) == Some(n)
               else if n <= MAX_HEAD_BYTES then Reading(s, terminator, buf + byte, unread)
               else n == MAX_HEAD_BYTES + 1 && Terminated(s, terminator) == None
  {
    hide Terminated, EndsWith, NotBefore;
    PrefixGrows(s, |buf|, byte, unread);
    ByteRead(s, |buf| + 1, terminator);
    if !EndsWith(buf + byte, terminator) && |buf| == MAX_HEAD_BYTES {
      NotTerminated(s, |buf| + 1, terminator);
    }
  }

  lemma ReadingEnds(s: string, terminator: string, buf: string)
    requires Reading(s, terminator, buf, "")
    ensures buf == s && |s| <= MAX_HEAD_BYTES && Terminated(s, terminator) == None
  {
    hide Terminated, NotBefore;
    PrefixGrows(s, |buf|, "", "");
    NotTerminated(s, |buf|, terminator);
  }

  method ReadHead(stream: Socket) returns (r: Result<Head, IoError>)
    modifies stream`unread
    ensures Read(r, stream.unread) == HeadRead(old(stream.unread), stream.end)
  {
    hide Terminated, EndsWith, Reading, ParsedHead;
    ghost var s := stream.unread;
    var buf := "";
    ReadingStarts(s, END_OF_HEAD);
    while true
      invariant Reading(s, END_OF_HEAD, buf, stream.unread)
      decreases |stream.unread|
    {
      var got := stream.Recv(1);
      if got.Err? || got.value == "" {
        ReadingEnds(s, END_OF_HEAD, buf);
        return Err(if got.Err? then got.error else ClosedInHead);
      }
      ReadingGoesOn(s, END_OF_HEAD, buf, got.value, stream.unread);
      buf := buf + got.value;
      if EndsWith(buf, END_OF_HEAD) {
        break;
      }
      if |buf| > MAX_HEAD_BYTES {
        return Err(HeadTooLarge);
      }
    }
    var head := ParseHead(buf);
    r := Ok(head);
  }

  method ReadLine(stream: Socket) returns (r: Result<string, IoError>)
    modifies stream`unread
    ensures Read(r, stream.unread) == LineRead(old(stream.unread), stream.end)
  {
    hide Terminated, EndsWith, Reading;
    ghost var s := stream.unread;
    var buf := "";
    ReadingStarts(s, "\n");
    while true
      invariant Reading(s, "\n", buf, stream.unread)
      decreases |stream.unread|
    {
      var got := stream.Recv(1);
      if got.Err? || got.value == "" {
        ReadingEnds(s, "\n", buf);
        return if got.Err? then got else Ok(buf);
      }
      ReadingGoesOn(s, "\n", buf, got.value, stream.unread);
      buf := buf + got.value;
      if EndsWith(buf, "\n") {
        return Ok(buf);
      }
      if |buf| > MAX_HEAD_BYTES {
        return Err(LineTooLong);
      }
    }
  }

  method Discard(stream: Socket, len: nat) returns (r: Result<(), IoError>)
    modifies stream`unread
    ensures Read(r, stream.unread) == Discarded(old(stream.unread), stream.end, len)
  {
    if len > MAX_DRAIN_BYTES {
      return Err(BodyTooLarge);
    }
    ghost var s := stream.unread;
    var left := len;
    while left > 0
      invariant 0 <= left <= len && len - left <= |s| && stream.unread == s[len - left..]
    {
      var got := stream.Recv(if left < DISCARD_BUFFER then left else DISCARD_BUFFER);
      match got {
        case Err(e) =>
          return Err(e);
        case Ok(bytes) =>
          if bytes == "" {
            return Err(ClosedInBody);
          }
          left := left - |bytes|;
      }
      assert stream.unread == s[len - left..];
    }
    r := Ok(());
  }

  function SaturatingAdd(a: nat, b: nat): nat {
    if a + b > MAX_U64 then MAX_U64 else a + b
  }

  lemma DrainStep(s: string, end: End, total: nat, line: string, s1: string, size: nat, s2: string)
    requires total + size <= MAX_DRAIN_BYTES && size > 0
    requires LineRead(s, end) == Read(Ok(line), s1) && ChunkSize(line) == Some(size)
    requires ChunkSkipped(s1, end, size) == Read(Ok(()), s2)
    ensures ChunksDrained(s, end, total) == ChunksDrained(s2, end, total + size)
  {
    hide LineRead, ChunkSize, ChunkSkipped;
  }

  method DrainChunked(stream: Socket) returns (r: Result<(), IoError>)
    modifies stream`unread
    ensures Read(r, stream.unread) == ChunksDrained(old(stream.unread), stream.end, 0)
  {
    hide LineRead, ChunkSize, Discarded;
    var total := 0;
    while true
      invariant total <= MAX_DRAIN_BYTES
      invariant ChunksDrained(stream.unread, stream.end, total)
             == ChunksDrained(old(stream.unread), stream.end, 0)
      decreases MAX_DRAIN_BYTES - total
    {
      ghost var s := stream.unread;
      var line := ReadLine(stream);
      ghost var s1 := stream.unread;
      if line.Err? {
        return Err(line.error);
      }
      var parsed := ChunkSize(line.value);
      if parsed.None? {
        return Err(InvalidChunkSize);
      }
      var size := parsed.value;
      if size == 0 {
        var trailer := ReadLine(stream);
        return if trailer.Ok? then Ok(()) else Err(trailer.error);
      }
      if SaturatingAdd(total, size) > MAX_DRAIN_BYTES {
        return Err(BodyTooLarge);
      }
      total := SaturatingAdd(total, size);
      var data := Discard(stream, size);
      if data.Err? {
        return data;
      }
      var after := ReadLine(stream);
      if after.Err? {
        return Err(after.error);
      }
      DrainStep(s, stream.end, total - size, line.value, s1, size, stream.unread);
    }
  }

  method DrainBody(stream: Socket, headers: Headers) returns (r: Result<(), IoError>)
    modifies stream`unread
    ensures Read(r, stream.unread) == BodyDrained(old(stream.unread), stream.end, headers)
  {
    match ContentLength(headers) {
      case Some(len) =>
        r := Discard(stream, len);
      case None =>
        if IsChunked(headers) {
          r := DrainChunked(stream);
        } else {
          r := Ok(());
        }
    }
  }

  // ---------- How much a hostile upstream can make the drain read ----------

  const LINE_LIMIT: nat := MAX_HEAD_BYTES + 1

  ghost predicate Consumes(s: string, rest: string, n: nat) {
    |rest| <= |s| && rest == s[|s| - |rest|..] && |s| - |rest| <= n
  }

  lemma LineConsumes(s: string, end: End)
    ensures Consumes(s, LineRead(s, end).rest, LINE_LIMIT)
  {
  }

  lemma ConsumesBoth(a: string, b: string, c: string, n: nat, m: nat, bound: nat)
    requires Consumes(a, b, n) && Consumes(b, c, m) && n + m <= bound
    ensures Consumes(a, c, bound)
  {
  }

  /** The bytes of chunk data that a drain discards. */
  function DataDrained(s: string, end: End, total: nat): nat
    requires total <= MAX_DRAIN_BYTES
    decreases MAX_DRAIN_BYTES - total
  {
    match NextChunk(s, end, total)
    case None => 0
    case Some(size) =>
      var rest := LineRead(s, end).rest;
      var chunk := ChunkSkipped(rest, end, size);
      (if size <= |rest| then size else |rest|)
      + if chunk.result.Ok? then DataDrained(chunk.rest, end, total + size) else 0
  }

  /** The lines that it reads or begins to read: one for each size, one after the data of each chunk and
      one after the zero chunk. */
  function LinesDrained(s: string, end: End, total: nat): nat
    requires total <= MAX_DRAIN_BYTES
    decreases MAX_DRAIN_BYTES - total
  {
    match NextChunk(s, end, total)
    case None => if IsZeroChunk(s, end) then 2 else 1
    case Some(size) =>
      var rest := LineRead(s, end).rest;
      var chunk := ChunkSkipped(rest, end, size);
      (if size <= |rest| then 2 else 1)
      + if chunk.result.Ok? then LinesDrained(chunk.rest, end, total + size) else 0
  }

  /** The size of the chunk that comes next, if there is one and the budget allows it. */
  function NextChunk(s: string, end: End, total: nat): (r: Option<nat>)
    ensures r.Some? ==> r.value > 0 && total + r.value <= MAX_DRAIN_BYTES
  {
    var line := LineRead(s, end);
    if line.result.Err? then None
    else
      match ChunkSize(line.result.value)
      case None => None
      case Some(size) => if size == 0 || total + size > MAX_DRAIN_BYTES then None else Some(size)
  }

  predicate IsZeroChunk(s: string, end: End) {
    var line := LineRead(s, end);
    line.result.Ok? && ChunkSize(line.result.value) == Some(0)
  }

  lemma DrainUnfolds(s: string, end: End, total: nat)
    requires total <= MAX_DRAIN_BYTES
    ensures var rest := LineRead(s, end).rest;
            ChunksDrained(s, end, total).rest ==
              match NextChunk(s, end, total)
              case None => if IsZeroChunk(s, end) then LineRead(rest, end).rest else rest
              case Some(size) =>
                var chunk := ChunkSkipped(rest, end, size);
                if chunk.result.Ok? then ChunksDrained(chunk.rest, end, total + size).rest else chunk.rest
  {
    hide LineRead, ChunkSize, ChunkSkipped;
  }

  /** The data of one chunk, and a line after it only if the data was all there. */
  lemma ChunkConsumes(s: string, end: End, size: nat)
    requires size <= MAX_DRAIN_BYTES
    ensures Consumes(s, ChunkSkipped(s, end, size).rest,
                     if size <= |s| then size + LINE_LIMIT else |s|)
    ensures ChunkSkipped(s, end, size).result.Ok? ==> size <= |s|
  {
    if size <= |s| {
      LineConsumes(s[size..], end);
    }
  }

  lemma CountsUnfold(s: string, end: End, total: nat)
    requires total <= MAX_DRAIN_BYTES
    ensures var rest := LineRead(s, end).rest;
            var data, lines := DataDrained(s, end, total), LinesDrained(s, end, total);
            match NextChunk(s, end, total)
            case None => data == 0 && lines == if IsZeroChunk(s, end) then 2 else 1
            case Some(size) =>
              var chunk := ChunkSkipped(rest, end, size);
              if chunk.result.Ok? then
                size <= |rest|
                && data == size + DataDrained(chunk.rest, end, total + size)
                && lines == 2 + LinesDrained(chunk.rest, end, total + size)
              else if size <= |rest| then data == size && lines == 2
              else data == |rest| && lines == 1
  {
    hide LineRead, ChunkSize, NextChunk, ChunkSkipped, IsZeroChunk;
    if NextChunk(s, end, total).Some? {
      ChunkConsumes(LineRead(s, end).rest, end, NextChunk(s, end, total).value);
    }
  }

  lemma {:induction false} CountsAreBounded(s: string, end: End, total: nat)
    requires total <= MAX_DRAIN_BYTES
    ensures var data, lines := DataDrained(s, end, total), LinesDrained(s, end, total);
            data <= MAX_DRAIN_BYTES - total && lines <= 2 * data + 2
    decreases MAX_DRAIN_BYTES - total
  {
    hide LineRead, NextChunk, ChunkSkipped, DataDrained, LinesDrained, IsZeroChunk;
    CountsUnfold(s, end, total);
    match NextChunk(s, end, total)
    case None =>
    case Some(size) =>
      var chunk := ChunkSkipped(LineRead(s, end).rest, end, size);
      if chunk.result.Ok? {
        CountsAreBounded(chunk.rest, end, total + size);
      }
  }

  lemma {:induction false} CountsCoverTheDrain(s: string, end: End, total: nat)
    requires total <= MAX_DRAIN_BYTES
    ensures Consumes(s, ChunksDrained(s, end, total).rest,
                     DataDrained(s, end, total) + 65537 * LinesDrained(s, end, total))
    decreases MAX_DRAIN_BYTES - total
  {
    hide LineRead, ChunkSkipped, ChunksDrained, Consumes, NextChunk, DataDrained, LinesDrained, IsZeroChunk;
    var rest := LineRead(s, end).rest;
    DrainUnfolds(s, end, total);
    CountsUnfold(s, end, total);
    LineConsumes(s, end);
    match NextChunk(s, end, total)
    case None =>
      if IsZeroChunk(s, end) {
        LineConsumes(rest, end);
        ConsumesBoth(s, rest, LineRead(rest, end).rest, 65537, 65537, 2 * 65537);
      }
    case Some(size) =>
      var chunk := ChunkSkipped(rest, end, size);
      var used := if size <= |rest| then size + 65537 else |rest|;
      ChunkConsumes(rest, end, size);
      ConsumesBoth(s, rest, chunk.rest, 65537, used, used + 65537);
      if chunk.result.Ok? {
        CountsCoverTheDrain(chunk.rest, end, total + size);
        var data, lines := DataDrained(chunk.rest, end, total + size), LinesDrained(chunk.rest, end, total + size);
        assert used == size + 65537;
        ConsumesBoth(s, chunk.rest, ChunksDrained(chunk.rest, end, total + size).rest,
                     size + 2 * 65537, data + 65537 * lines, size + data + 65537 * (lines + 2));
      }
  }

  /** On any stream whatsoever: a drain with `MAX_DRAIN_BYTES - total` bytes of budget discards at most
      that much chunk data, reads at most two lines to a byte of it and two more, and consumes
      nothing but that data and those lines, each of at most 65537 bytes. */
  lemma DrainIsBounded(s: string, end: End, total: nat)
    requires total <= MAX_DRAIN_BYTES
    ensures var data, lines := DataDrained(s, end, total), LinesDrained(s, end, total);
            data <= 1048576 - total && lines <= 2 * data + 2
            && Consumes(s, ChunksDrained(s, end, total).rest, data + 65537 * lines)
  {
    hide Consumes, ChunksDrained, DataDrained, LinesDrained;
    CountsAreBounded(s, end, total);
    CountsCoverTheDrain(s, end, total);
  }
}

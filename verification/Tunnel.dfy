/** The two pumps of a `CONNECT` tunnel run concurrently; the first to settle decides how long to wait
    for the other, and the pair of outcomes decides how the close is reported. */
module Tunnel {
  import opened Results

  const BUFFER_SIZE: nat := 256 * 1024

  datatype Endpoint = Client | Upstream

  datatype Op = Reading | Writing

  datatype Direction = ClientToUpstream | UpstreamToClient
  {
    /** The endpoint that a pump in this direction reads from. */
    function Source(): Endpoint {
      if ClientToUpstream? then Client else Upstream
    }

    function Sink(): Endpoint {
      if ClientToUpstream? then Upstream else Client
    }
  }

  datatype PumpError = PumpError(op: Op)

  // ---------- One pump, run alone ----------

  /** A source that yields `pending`, in pieces of any size, and then ends or fails. */
  class ReadHalf {
    var pending: string
    const fails: bool

    constructor (pending: string, fails: bool)
      ensures this.pending == pending && this.fails == fails
    {
      this.pending, this.fails := pending, fails;
    }

    method Recv(limit: nat) returns (r: Option<string>)
      requires limit > 0
      modifies this
      ensures old(pending) == "" ==> pending == "" && r == if fails then None else Some("")
      ensures old(pending) != "" ==> r.Some? && 0 < |r.value| <= limit && r.value + pending == old(pending)
    {
      if pending == "" {
        return if fails then None else Some("");
      }
      var n: nat :| 1 <= n <= limit && n <= |pending|;
      r := Some(pending[..n]);
      pending := pending[n..];
    }
  }

  /** A sink that accepts `room` bytes before it fails or stalls. */
  class WriteHalf {
    var got: string
    var room: nat
    var shutdowns: nat

    constructor (room: nat)
      ensures got == "" && this.room == room && shutdowns == 0
    {
      got, this.room, shutdowns := "", room, 0;
    }

    /** All of `bytes`, or as many as there is room for. */
    method WriteAll(bytes: string) returns (ok: bool)
      modifies this`got, this`room
      ensures ok <==> |bytes| <= old(room)
      ensures got == old(got) + if ok then bytes else bytes[..old(room)]
      ensures room == if ok then old(room) - |bytes| else 0
    {
      ok := |bytes| <= room;
      got := got + if ok then bytes else bytes[..room];
      room := if ok then room - |bytes| else 0;
    }

    method Shutdown()
      modifies this`shutdowns
      ensures shutdowns == old(shutdowns) + 1
    {
      shutdowns := shutdowns + 1;
    }
  }

  class Counter {
    var total: nat

    constructor ()
      ensures total == 0
    {
      total := 0;
    }
  }

  /** Copies until the source ends or either side fails. A clean end relays the whole source and then
      shuts the sink down once; a read failure has relayed all that came before it; a write
      failure has filled the sink, and only the last buffer is then missing from the count. */
  method RunPump(r: ReadHalf, w: WriteHalf, counter: Counter) returns (result: Result<(), PumpError>)
    modifies r, w, counter
    ensures var all, room := old(r.pending), old(w.room);
            var relayed := if |all| <= room then all else all[..room];
            w.got == old(w.got) + relayed
            && 0 <= counter.total - old(counter.total) <= |relayed| <= counter.total - old(counter.total) + BUFFER_SIZE
            && (|all| <= room ==> counter.total == old(counter.total) + |all|)
            && result == if |all| > room then Err(PumpError(Writing))
                         else if r.fails then Err(PumpError(Reading))
                         else Ok(())
    ensures w.shutdowns == old(w.shutdowns) + if result.Ok? then 1 else 0
  {
    ghost var all := r.pending;
    ghost var sent: nat := 0;
    assert all[0..] == all;
    while true
      invariant 0 <= sent <= |all| && w.got == old(w.got) + all[..sent] && r.pending == all[sent..]
      invariant sent + w.room == old(w.room) && counter.total == old(counter.total) + sent
      invariant w.shutdowns == old(w.shutdowns)
      decreases |r.pending|
    {
      var chunk := r.Recv(BUFFER_SIZE);
      if chunk.None? {
        assert all[..sent] == all;
        return Err(PumpError(Reading));
      }
      if chunk.value == "" {
        assert all[..sent] == all;
        w.Shutdown();
        return Ok(());
      }
      Relayed(old(w.got), all, sent, chunk.value, r.pending, w.room);
      var ok := w.WriteAll(chunk.value);
      if !ok {
        return Err(PumpError(Writing));
      }
      counter.total := counter.total + |chunk.value|;
      sent := sent + |chunk.value|;
    }
  }

  lemma Relayed(before: string, all: string, n: nat, chunk: string, rest: string, room: nat)
    requires n <= |all| && chunk + rest == all[n..]
    ensures n + |chunk| <= |all| && rest == all[n + |chunk|..]
    ensures before + all[..n] + chunk == before + all[..n + |chunk|]
    ensures room < |chunk| ==> before + all[..n] + chunk[..room] == before + all[..n + room]
  {
    assert all == all[..n] + (chunk + rest);
  }

  // ---------- One pump, as steps that another task may interleave with ----------

  /** At the end of its source a pump awaits the sink's shutdown before it settles. */
  datatype Stage =
    | Receiving
    | Sending(chunk: string, done: nat)
    | ShuttingDown
    | Settled(result: Result<(), PumpError>)
    | Abandoned

  /** `produced` is what the source has yielded and `ended` whether it ended cleanly; `delivered` is
      what the sink has received; `culprit` is the endpoint whose socket operation failed. */
  datatype Pump = Pump(
    stage: Stage, produced: string, ended: bool, delivered: string, counter: nat, shutdowns: nat,
    culprit: Option<Endpoint>)

  const IDLE: Pump := Pump(Receiving, "", false, "", 0, 0, None)

  ghost predicate ReceiveStep(dir: Direction, p: Pump, p': Pump) {
    p.stage.Receiving?
    && (|| (exists chunk: string | 1 <= |chunk| <= BUFFER_SIZE ::
             p' == p.(stage := Sending(chunk, 0), produced := p.produced + chunk))
        || p' == p.(stage := ShuttingDown, ended := true, shutdowns := p.shutdowns + 1)
        || p' == p.(stage := Settled(Err(PumpError(Reading))), culprit := Some(dir.Source())))
  }

  /** Part of the buffer goes out, or all of it has and is counted, or the sink fails or stalls. */
  ghost predicate SendStep(dir: Direction, p: Pump, p': Pump) {
    p.stage.Sending? && p.stage.done <= |p.stage.chunk|
    && var Sending(chunk, done) := p.stage;
       (|| (exists k: nat | done < k <= |chunk| ::
              p' == p.(stage := Sending(chunk, k), delivered := p.delivered + chunk[done..k]))
        || (done == |chunk| && p' == p.(stage := Receiving, counter := p.counter + |chunk|))
        || p' == p.(stage := Settled(Err(PumpError(Writing))), culprit := Some(dir.Sink())))
  }

  /** The shutdown is over; whether it succeeded is ignored. */
  ghost predicate ShutdownStep(p: Pump, p': Pump) {
    p.stage.ShuttingDown? && p' == p.(stage := Settled(Ok(())))
  }

  ghost predicate PumpStep(dir: Direction, p: Pump, p': Pump) {
    ReceiveStep(dir, p, p') || SendStep(dir, p, p') || ShutdownStep(p, p')
  }

  /** What every step of a pump keeps, even where it is abandoned in the middle of a write or of the
      shutdown. */
  ghost predicate PumpInv(dir: Direction, p: Pump) {
    && p.delivered <= p.produced
    && p.counter <= |p.delivered| <= p.counter + BUFFER_SIZE
    && p.shutdowns == (if p.ended then 1 else 0)
    && (p.ended ==> p.delivered == p.produced && p.counter == |p.delivered|)
    && match p.stage
       case Receiving =>
         p.delivered == p.produced && p.counter == |p.delivered| && !p.ended && p.culprit == None
       case Sending(chunk, done) =>
         !p.ended && p.culprit == None && done <= |chunk| <= BUFFER_SIZE
         && p.produced == p.delivered + chunk[done..] && |p.delivered| == p.counter + done
       case ShuttingDown => p.ended && p.culprit == None
       case Settled(Ok(_)) => p.ended && p.culprit == None
       case Settled(Err(e)) => !p.ended && p.culprit == Some(WhoReset(dir, e.op))
       case Abandoned => p.culprit == None
  }

  lemma ReceiveKeeps(dir: Direction, p: Pump, p': Pump)
    requires PumpInv(dir, p) && ReceiveStep(dir, p, p')
    ensures PumpInv(dir, p')
  {
    if p'.stage.Sending? {
      assert p'.stage.chunk[0..] == p'.stage.chunk;
    }
  }

  lemma SendKeeps(dir: Direction, p: Pump, p': Pump)
    requires PumpInv(dir, p) && SendStep(dir, p, p')
    ensures PumpInv(dir, p')
  {
    var Sending(chunk, done) := p.stage;
    if p'.stage.Sending? {
      var k := p'.stage.done;
      assert chunk[done..] == chunk[done..k] + chunk[k..];
      assert p.delivered + (chunk[done..k] + chunk[k..]) == p.delivered + chunk[done..k] + chunk[k..];
    }
  }

  // ---------- The close policy ----------

  datatype Wait = Full | Grace | NoWait

  datatype Outcome = Eof | Failed(error: PumpError) | Dropped

  /** The endpoint blamed for a failed operation of a pump. */
  function WhoReset(dir: Direction, op: Op): Endpoint {
    match (dir, op)
    case (ClientToUpstream, Reading) => Client
    case (ClientToUpstream, _) => Upstream
    case (UpstreamToClient, Reading) => Upstream
    case (UpstreamToClient, _) => Client
  }

  function WaitFor(result: Result<(), PumpError>, dir: Direction): Wait {
    match result
    case Ok(_) => Full
    case Err(e) => if WhoReset(dir, e.op) == Client then NoWait else Grace
  }

  function FromResult(result: Result<(), PumpError>): Outcome {
    match result
    case Ok(_) => Eof
    case Err(e) => Failed(e)
  }

  /** The close report: the failure and the direction blamed, or none for a completed transfer. */
  function Classify(up: Outcome, down: Outcome): Option<(PumpError, Direction)> {
    match (up, down)
    case (Failed(e), _) =>
      if e.op == Writing then Some((e, ClientToUpstream))
      else if down.Eof? then None
      else if down.Failed? then Some((down.error, UpstreamToClient))
      else Some((e, ClientToUpstream))
    case (_, Eof) => None
    case (_, Failed(e)) => Some((e, UpstreamToClient))
    case _ => None
  }

  // ---------- The splice ----------

  datatype Phase = Racing | Draining(first: Direction, wait: Wait) | Closed(up: Outcome, down: Outcome)

  datatype Splice = Splice(up: Pump, down: Pump, phase: Phase)
  {
    function At(dir: Direction): Pump {
      if dir.ClientToUpstream? then up else down
    }
  }

  function Other(dir: Direction): Direction {
    if dir.ClientToUpstream? then UpstreamToClient else ClientToUpstream
  }

  function With(s: Splice, dir: Direction, p: Pump): Splice {
    if dir.ClientToUpstream? then s.(up := p) else s.(down := p)
  }

  function OutcomeOf(p: Pump): Outcome {
    if p.stage.Settled? then FromResult(p.stage.result) else Dropped
  }

  function CloseOf(s: Splice): Splice {
    s.(phase := Closed(OutcomeOf(s.up), OutcomeOf(s.down)))
  }

  /** Both pumps run until one settles, which fixes the wait. */
  ghost predicate RaceStep(s: Splice, s': Splice, dir: Direction) {
    s.phase.Racing? && !s.At(dir).stage.Settled?
    && PumpStep(dir, s.At(dir), s'.At(dir))
    && var moved := With(s, dir, s'.At(dir));
       s' == match s'.At(dir).stage
             case Settled(result) => moved.(phase := Draining(dir, WaitFor(result, dir)))
             case _ => moved
  }

  /** The other pump runs on under the wait: to its own end, until the grace expires, or not at all. */
  ghost predicate DrainStep(s: Splice, s': Splice) {
    s.phase.Draining?
    && var dir := Other(s.phase.first);
       || (s.phase.wait != NoWait && PumpStep(dir, s.At(dir), s'.At(dir))
           && var moved := With(s, dir, s'.At(dir));
              s' == if s'.At(dir).stage.Settled? then CloseOf(moved) else moved)
       || (s.phase.wait != Full && s' == CloseOf(With(s, dir, s.At(dir).(stage := Abandoned))))
  }

  ghost predicate SpliceInit(s: Splice) {
    s == Splice(IDLE, IDLE, Racing)
  }

  ghost predicate SpliceNext(s: Splice, s': Splice) {
    RaceStep(s, s', ClientToUpstream) || RaceStep(s, s', UpstreamToClient) || DrainStep(s, s')
  }

  ghost predicate IsRun(run: seq<Splice>) {
    run != [] && SpliceInit(run[0]) && forall i | 0 <= i < |run| - 1 :: SpliceNext(run[i], run[i + 1])
  }

  ghost predicate Active(p: Pump) {
    p.stage.Receiving? || p.stage.Sending? || p.stage.ShuttingDown?
  }

  /** In a closed splice one pump settled first and the other ended as its wait allowed. */
  ghost predicate ClosedAfter(s: Splice, first: Direction) {
    s.At(first).stage.Settled?
    && var wait := WaitFor(s.At(first).stage.result, first);
       var other := s.At(Other(first)).stage;
       match wait
       case Full => other.Settled?
       case Grace => other.Settled? || other.Abandoned?
       case NoWait => other.Abandoned?
  }

  ghost predicate SpliceInv(s: Splice) {
    && PumpInv(ClientToUpstream, s.up) && PumpInv(UpstreamToClient, s.down)
    && match s.phase
       case Racing => Active(s.up) && Active(s.down)
       case Draining(first, wait) =>
         s.At(first).stage.Settled? && Active(s.At(Other(first)))
         && wait == WaitFor(s.At(first).stage.result, first)
       case Closed(up, down) =>
         up == OutcomeOf(s.up) && down == OutcomeOf(s.down)
         && (ClosedAfter(s, ClientToUpstream) || ClosedAfter(s, UpstreamToClient))
  }

  lemma PumpKeeps(dir: Direction, p: Pump, p': Pump)
    requires PumpInv(dir, p) && PumpStep(dir, p, p')
    ensures PumpInv(dir, p') && (Active(p') || p'.stage.Settled?)
  {
    if ReceiveStep(dir, p, p') {
      ReceiveKeeps(dir, p, p');
    } else if SendStep(dir, p, p') {
      SendKeeps(dir, p, p');
    }
  }

  lemma AbandonKeeps(dir: Direction, p: Pump)
    requires PumpInv(dir, p) && Active(p)
    ensures PumpInv(dir, p.(stage := Abandoned))
  {
  }

  lemma RaceKeeps(s: Splice, s': Splice, dir: Direction)
    requires SpliceInv(s) && RaceStep(s, s', dir)
    ensures SpliceInv(s')
  {
    hide PumpInv, PumpStep;
    PumpKeeps(dir, s.At(dir), s'.At(dir));
  }

  lemma DrainKeeps(s: Splice, s': Splice)
    requires SpliceInv(s) && DrainStep(s, s')
    ensures SpliceInv(s')
  {
    hide PumpInv, PumpStep;
    var first, dir := s.phase.first, Other(s.phase.first);
    AbandonKeeps(dir, s.At(dir));
    if PumpStep(dir, s.At(dir), s'.At(dir)) {
      PumpKeeps(dir, s.At(dir), s'.At(dir));
    }
    if s'.phase.Closed? {
      assert ClosedAfter(s', first);
    }
  }

  /** Every state of every interleaving keeps the invariant. */
  lemma {:induction false} EveryStateIsGood(run: seq<Splice>, i: nat)
    requires IsRun(run) && i < |run|
    ensures SpliceInv(run[i])
  {
    hide SpliceInv, RaceStep, DrainStep;
    if i == 0 {
      InitKeeps(run[0]);
    } else {
      EveryStateIsGood(run, i - 1);
      var s, s' := run[i - 1], run[(i - 1) + 1];
      assert SpliceNext(s, s');
      if RaceStep(s, s', ClientToUpstream) {
        RaceKeeps(s, s', ClientToUpstream);
      } else if RaceStep(s, s', UpstreamToClient) {
        RaceKeeps(s, s', UpstreamToClient);
      } else {
        DrainKeeps(s, s');
      }
    }
  }

  lemma InitKeeps(s: Splice)
    requires SpliceInit(s)
    ensures SpliceInv(s)
  {
  }

  // ---------- What the invariant gives ----------

  /** In every state of every interleaving, also where a pump was abandoned in the middle of an await:
      what a sink received is a prefix of what its source produced, and exceeds the live count by
      at most one buffer. */
  lemma SinksReceivePrefixes(run: seq<Splice>, i: nat, dir: Direction)
    requires IsRun(run) && i < |run|
    ensures var p := run[i].At(dir);
            p.delivered <= p.produced && p.counter <= |p.delivered| <= p.counter + 262144
            && p.shutdowns <= 1
  {
    EveryStateIsGood(run, i);
  }

  /** A clean outcome means that the whole source was relayed and counted before the sink's one
      shutdown. A failed direction shuts nothing down, and a dropped one only if it was dropped during
      the shutdown, after relaying everything. */
  lemma EofRelaysEverything(run: seq<Splice>, i: nat, dir: Direction)
    requires IsRun(run) && i < |run| && run[i].phase.Closed?
    ensures var p := run[i].At(dir);
            var outcome := if dir.ClientToUpstream? then run[i].phase.up else run[i].phase.down;
            (outcome.Eof? ==> p.shutdowns == 1)
            && (outcome.Failed? ==> p.shutdowns == 0)
            && (p.shutdowns == 1 <==> p.ended)
            && (p.ended ==> p.delivered == p.produced && p.counter == |p.delivered|)
  {
    EveryStateIsGood(run, i);
  }

  /** The pairs of outcomes that a close can have: a direction is dropped only beside one that failed. */
  lemma ReachableOutcomes(run: seq<Splice>, i: nat)
    requires IsRun(run) && i < |run| && run[i].phase.Closed?
    ensures run[i].phase.up.Dropped? ==> run[i].phase.down.Failed?
    ensures run[i].phase.down.Dropped? ==> run[i].phase.up.Failed?
  {
    EveryStateIsGood(run, i);
  }

  /** A tunnel is reported completed if and only if the download reached a clean end and the upload
      did not end in a write failure; so the classifier's catch-all is never what decides. */
  lemma CompletedExactly(run: seq<Splice>, i: nat)
    requires IsRun(run) && i < |run| && run[i].phase.Closed?
    ensures var Closed(up, down) := run[i].phase;
            Classify(up, down).None? <==> down.Eof? && up != Failed(PumpError(Writing))
    ensures run[i].phase.up.Failed? || !run[i].phase.down.Dropped?
  {
    ReachableOutcomes(run, i);
  }

  /** Which failure is reported, in terms of how the pumps ended: a failed write of the upload before
      anything else; then a failed download, whatever the upload did; and a failed read of the upload
      only if the download was dropped on its account. Nothing else is a failure. */
  lemma ReportIs(run: seq<Splice>, i: nat)
    requires IsRun(run) && i < |run| && run[i].phase.Closed?
    ensures var up, down := run[i].up.stage, run[i].down.stage;
            Classify(run[i].phase.up, run[i].phase.down) ==
              if up == Settled(Err(PumpError(Writing))) then Some((PumpError(Writing), ClientToUpstream))
              else if down == Settled(Err(PumpError(Reading))) then Some((PumpError(Reading), UpstreamToClient))
              else if down == Settled(Err(PumpError(Writing))) then Some((PumpError(Writing), UpstreamToClient))
              else if down == Abandoned then Some((PumpError(Reading), ClientToUpstream))
              else None
    ensures run[i].down.stage == Abandoned ==> run[i].up.stage.Settled? && run[i].up.stage.result.Err?
  {
    EveryStateIsGood(run, i);
  }

  /** The endpoint named as having reset a failed tunnel is the one whose socket operation produced the
      reported error. */
  lemma BlameIsRight(run: seq<Splice>, i: nat)
    requires IsRun(run) && i < |run| && run[i].phase.Closed?
    requires Classify(run[i].phase.up, run[i].phase.down).Some?
    ensures var (error, dir) := Classify(run[i].phase.up, run[i].phase.down).value;
            run[i].At(dir).stage == Settled(Err(error))
            && run[i].At(dir).culprit == Some(WhoReset(dir, error.op))
  {
    EveryStateIsGood(run, i);
  }

  /** A client that fails first ends the tunnel at once; an upstream that fails first, or a clean end,
      leaves the other direction running. */
  lemma ClientFailureDropsTheOther(run: seq<Splice>, i: nat, dir: Direction)
    requires IsRun(run) && i < |run| && run[i].phase.Draining? && run[i].phase.first == dir
    ensures run[i].phase.wait == NoWait <==> run[i].At(dir).culprit == Some(Client)
    ensures run[i].phase.wait == Full <==> run[i].At(dir).ended
  {
    EveryStateIsGood(run, i);
  }
}

/** The prewarm task and the requests that take from its pool, as interleaved steps. */
module Prewarm {
  import opened Results
  import opened Pool

  const FIRST_DELAY: nat := 500
  const MAX_DELAY: nat := 30000

  // ---------- The backoff ----------

  function Power2(k: nat): nat {
    if k == 0 then 1 else 2 * Power2(k - 1)
  }

  function Min(a: nat, b: nat): nat {
    if a < b then a else b
  }

  /** The k-th delay since the pool was last full. */
  function Delay(k: nat): nat {
    Min(FIRST_DELAY * Power2(k), MAX_DELAY)
  }

  function Doubled(delay: nat): nat {
    Min(delay * 2, MAX_DELAY)
  }

  class Backoff {
    var next: nat
    /** The waits since the pool was last full. */
    ghost var waits: nat

    ghost predicate Valid()
      reads this
    {
      next == Delay(waits)
    }

    constructor ()
      ensures Valid() && waits == 0
    {
      next, waits := FIRST_DELAY, 0;
    }

    /** The k-th wait takes the k-th delay. */
    method NextDelay() returns (delay: nat)
      requires Valid()
      modifies this
      ensures Valid() && waits == old(waits) + 1 && delay == Delay(old(waits))
    {
      delay := next;
      DelayDoubles(waits);
      next, waits := Doubled(next), waits + 1;
    }

    method Reset()
      modifies this
      ensures Valid() && waits == 0
    {
      next, waits := FIRST_DELAY, 0;
    }
  }

  /** Doubling up to the cap gives the closed form. */
  lemma DelayDoubles(k: nat)
    ensures Doubled(Delay(k)) == Delay(k + 1)
  {
  }

  function TotalDelay(n: nat): nat {
    if n == 0 then 0 else TotalDelay(n - 1) + Delay(n - 1)
  }

  lemma {:induction false} Saturates(k: nat)
    requires k >= 6
    ensures Delay(k) == MAX_DELAY
    ensures Power2(k) >= 64
  {
    if k == 6 {
      assert Power2(6) == 2 * (2 * (2 * (2 * (2 * (2 * Power2(0))))));
    } else {
      Saturates(k - 1);
    }
  }

  /** From the seventh wait on every wait is half a minute, so the total has a closed form. */
  lemma {:induction false} TotalDelayIs(n: nat)
    requires n >= 6
    ensures TotalDelay(n) == 31500 + 30000 * (n - 6)
  {
    if n == 6 {
      assert Power2(0) == 1 && Power2(1) == 2 && Power2(2) == 4 && Power2(3) == 8 && Power2(4) == 16 && Power2(5) == 32;
      assert TotalDelay(1) == 500 && TotalDelay(2) == 1500 && TotalDelay(3) == 3500;
      assert TotalDelay(4) == 7500 && TotalDelay(5) == 15500;
    } else {
      TotalDelayIs(n - 1);
      Saturates(n - 1);
    }
  }

  // ---------- The task alone, over the pool that requests take from ----------

  /** Requests take from the pool while the task is busy with something else. */
  method Meanwhile(pool: UpstreamPool)
    requires pool.Valid()
    modifies pool, pool.network
    ensures pool.Valid() && pool.idle <= old(pool.idle)
  {
    var takes: nat :| takes >= 0;
    for i := 0 to takes
      invariant pool.Valid() && pool.idle <= old(pool.idle)
    {
      var _ := pool.Take(true);
    }
  }

  /** What the task does, in order. A parked socket comes with the idle list right after. */
  datatype Event =
    | Looked(found: Refresh)
    | Slept
    | Waited(delay: nat)
    | Dialed(socket: Option<nat>)
    | Stored(parked: nat, idle: seq<Idle>)

  /** The pool as the task reaches it, and a record of everything it does. */
  class Runtime {
    const pool: UpstreamPool
    var log: seq<Event>

    constructor (pool: UpstreamPool)
      ensures this.pool == pool && log == []
    {
      this.pool, log := pool, [];
    }

    method Look() returns (found: Refresh)
      requires pool.Valid() && |pool.idle| <= pool.minIdle
      modifies this, pool`idle, pool.network
      ensures pool.Valid() && |pool.idle| <= pool.minIdle && (found.Short? ==> |pool.idle| < pool.minIdle)
      ensures log == old(log) + [Looked(found)]
    {
      ghost var before := pool.idle;
      found := pool.Refresh();
      KeptIsShorter(before, pool.idle);
      log := log + [Looked(found)];
    }

    /** Waits for a take, an expiry or the recheck. */
    method Sleep()
      requires pool.Valid()
      modifies this, pool, pool.network
      ensures pool.Valid() && pool.idle <= old(pool.idle) && log == old(log) + [Slept]
    {
      Meanwhile(pool);
      log := log + [Slept];
    }

    method Wait(delay: nat)
      requires pool.Valid()
      modifies this, pool, pool.network
      ensures pool.Valid() && pool.idle <= old(pool.idle) && log == old(log) + [Waited(delay)]
    {
      Meanwhile(pool);
      log := log + [Waited(delay)];
    }

    /** A dial succeeds or fails at will. */
    method Dial() returns (r: Option<nat>)
      requires pool.Valid()
      modifies this, pool, pool.network
      ensures pool.Valid() && pool.idle <= old(pool.idle) && log == old(log) + [Dialed(r)]
      ensures r.Some? ==> forall i | 0 <= i < |pool.idle| :: pool.idle[i].socket != r.value
    {
      Meanwhile(pool);
      var succeeds: bool := *;
      r := None;
      if succeeds {
        var socket := NewSocket(pool.idle);
        r := Some(socket);
      }
      log := log + [Dialed(r)];
    }

    method Park(socket: nat)
      requires pool.Valid() && |pool.idle| < pool.minIdle
      requires forall i | 0 <= i < |pool.idle| :: pool.idle[i].socket != socket
      modifies this, pool`idle
      ensures pool.Valid() && |pool.idle| <= pool.minIdle
      ensures pool.idle == old(pool.idle) + [Idle(socket, pool.network.now)]
      ensures log == old(log) + [Stored(socket, pool.idle)]
    {
      var _ := pool.Put(socket);
      log := log + [Stored(socket, pool.idle)];
    }
  }

  /** A failed dial, or a look that finds the pool short of sockets lost to their peers. */
  predicate IsSetback(e: Event) {
    e == Dialed(None) || (e.Looked? && e.found.Short? && e.found.closedByPeer > 0)
  }

  /** The waits since the pool was last full. */
  function WaitsSinceFull(log: seq<Event>): nat {
    if log == [] then 0
    else
      var before, last := log[..|log| - 1], log[|log| - 1];
      if last.Looked? && last.found.Full? then 0 else WaitsSinceFull(before) + if last.Waited? then 1 else 0
  }

  /** Whether `e` may be next after `log`: a setback is followed by a wait of the next delay, and only a
      setback is; a short pool is followed by a dial, at once or after that wait; a full one by sleep;
      a dialed socket is parked at the newest end, and then, as after any other end, the task looks
      again. */
  ghost predicate MayFollow(log: seq<Event>, e: Event) {
    if log == [] then e.Looked?
    else
      match log[|log| - 1]
      case Looked(found) =>
        if found.Full? then e == Slept
        else if found.closedByPeer > 0 then e == Waited(Delay(WaitsSinceFull(log)))
        else e.Dialed?
      case Slept => e.Looked?
      case Waited(_) => |log| > 1 && if log[|log| - 2].Looked? then e.Dialed? else e.Looked?
      case Dialed(None) => e == Waited(Delay(WaitsSinceFull(log)))
      case Dialed(Some(socket)) =>
        e.Stored? && e.parked == socket && e.idle != [] && e.idle[|e.idle| - 1].socket == socket
      case Stored(_, _) => e.Looked?
  }

  ghost predicate Disciplined(log: seq<Event>) {
    forall i | 0 <= i < |log| :: MayFollow(log[..i], log[i])
  }

  /** How many looks the task has taken. */
  function Looks(log: seq<Event>): nat {
    if log == [] then 0 else Looks(log[..|log| - 1]) + if log[|log| - 1].Looked? then 1 else 0
  }

  /** Between two rounds the only thing that may be next is a look. */
  ghost predicate BetweenRounds(log: seq<Event>) {
    Disciplined(log) && MayFollow(log, Looked(Full(0)))
  }

  lemma Logged(log: seq<Event>, e: Event)
    requires Disciplined(log) && MayFollow(log, e)
    ensures var longer := log + [e];
            Disciplined(longer) && longer[|longer| - 1] == e && longer[..|log|] == log
            && Looks(longer) == Looks(log) + (if e.Looked? then 1 else 0)
            && WaitsSinceFull(longer) ==
               (if e.Looked? && e.found.Full? then 0 else WaitsSinceFull(log) + if e.Waited? then 1 else 0)
  {
    hide MayFollow;
    var longer := log + [e];
    forall i | 0 <= i < |longer|
      ensures MayFollow(longer[..i], longer[i])
    {
      assert longer[..i] == log[..i];
      if i == |log| { assert log[..i] == log; }
    }
    assert longer[..|longer| - 1] == log;
  }

  /** Keeps the pool at its watermark for `rounds` looks, after which the pool is dropped. Requests take
      at every await. The task does nothing but what the discipline lets follow, and never puts the
      pool above its watermark. */
  method KeepWarm(runtime: Runtime, rounds: nat)
    requires runtime.pool.Valid() && |runtime.pool.idle| <= runtime.pool.minIdle && runtime.log == []
    modifies runtime, runtime.pool, runtime.pool.network
    ensures runtime.pool.Valid() && |runtime.pool.idle| <= runtime.pool.minIdle
    ensures BetweenRounds(runtime.log) && Looks(runtime.log) == rounds
  {
    hide Disciplined, Parked, Looks, WaitsSinceFull, Delay, CountsHostile, Subsequence, Usable, Refreshed, Took;
    var pool := runtime.pool;
    var backoff := new Backoff();
    NothingLogged();
    for i := 0 to rounds
      invariant pool.Valid() && |pool.idle| <= pool.minIdle && fresh(backoff)
      invariant backoff.Valid() && backoff.waits == WaitsSinceFull(runtime.log)
      invariant BetweenRounds(runtime.log) && Looks(runtime.log) == i
    {
      ghost var log := runtime.log;
      var found := runtime.Look();
      Logged(log, Looked(found));
      log := runtime.log;
      if found.Full? {
        backoff.Reset();
        runtime.Sleep();
        Logged(log, Slept);
        continue;
      }
      if found.closedByPeer > 0 {
        var delay := backoff.NextDelay();
        runtime.Wait(delay);
        Logged(log, Waited(delay));
        log := runtime.log;
      }
      DialAndPark(runtime, backoff);
    }
  }

  /** The end of a round: a dial, and then its socket parked or a wait. */
  method DialAndPark(runtime: Runtime, backoff: Backoff)
    requires runtime.pool.Valid() && |runtime.pool.idle| < runtime.pool.minIdle
    requires backoff.Valid() && backoff.waits == WaitsSinceFull(runtime.log)
    requires Disciplined(runtime.log) && forall r: Option<nat> :: MayFollow(runtime.log, Dialed(r))
    modifies runtime, backoff, runtime.pool, runtime.pool.network
    ensures runtime.pool.Valid() && |runtime.pool.idle| <= runtime.pool.minIdle
    ensures backoff.Valid() && backoff.waits == WaitsSinceFull(runtime.log)
    ensures BetweenRounds(runtime.log) && Looks(runtime.log) == Looks(old(runtime.log))
  {
    hide Disciplined, Parked, Looks, WaitsSinceFull, Delay;
    ghost var log := runtime.log;
    var dialed := runtime.Dial();
    Logged(log, Dialed(dialed));
    log := runtime.log;
    match dialed {
      case Some(socket) =>
        runtime.Park(socket);
        Logged(log, Stored(socket, runtime.pool.idle));
      case None =>
        var delay := backoff.NextDelay();
        runtime.Wait(delay);
        Logged(log, Waited(delay));
    }
  }

  lemma NothingLogged()
    ensures BetweenRounds([]) && Looks([]) == 0 && WaitsSinceFull([]) == 0
  {
  }

  /** A record of whole rounds begins with a look, so every wait has its cause: exactly the setbacks are followed by a wait, and it is of the delay that
      is next since the pool was last full; and exactly the successful dials by a parking, of the
      dialed socket, at the newest end. */
  lemma SetbacksAreWaitedOut(log: seq<Event>, i: nat)
    requires BetweenRounds(log) && i < |log|
    ensures log[0].Looked?
    ensures IsSetback(log[i]) <==> i + 1 < |log| && log[i + 1].Waited?
    ensures IsSetback(log[i]) ==> log[i + 1] == Waited(Delay(WaitsSinceFull(log[..i + 1])))
    ensures (log[i].Dialed? && log[i].socket.Some?) <==> i + 1 < |log| && log[i + 1].Stored?
    ensures i + 1 < |log| && log[i + 1].Stored? ==>
              var idle := log[i + 1].idle;
              idle != [] && Some(idle[|idle| - 1].socket) == log[i].socket
  {
    hide WaitsSinceFull;
    assert MayFollow(log[..0], log[0]);
    if i + 1 < |log| {
      assert MayFollow(log[..i + 1], log[i + 1]);
      assert log[..i + 1][i] == log[i];
    } else {
      assert log[|log| - 1] == log[i];
    }
  }

  /** Some socket that is not parked. */
  method NewSocket(idle: seq<Idle>) returns (socket: nat)
    ensures forall i | 0 <= i < |idle| :: idle[i].socket != socket
  {
    socket := 0;
    for i := 0 to |idle|
      invariant forall j | 0 <= j < i :: idle[j].socket < socket
    {
      if idle[i].socket >= socket {
        socket := idle[i].socket + 1;
      }
    }
  }

  // ---------- The system: requests, the prewarm task, the clock and the peers ----------

  /** Where the prewarm task is: about to look at the pool, asleep beside a full one, backing off
      before a dial or before looking again, dialing, or holding the dialed socket. */
  datatype Task = Looking | Asleep | BackingOff(thenDial: bool) | Dialing | Holding(socket: nat)

  /** `dialed` counts the sockets ever dialed, which are numbered from 0; `taken` is every socket
      handed out, in order; `closed` those the pool dropped; `waits` the task's waits since
      the pool was last full. */
  datatype System = System(
    minIdle: nat, timeout: nat, world: World, idle: seq<Idle>, task: Task, backoff: nat,
    dialed: nat, taken: seq<nat>, closed: set<nat>, waits: seq<nat>)

  ghost predicate Init(s: System) {
    s.idle == [] && s.task == Looking && s.backoff == FIRST_DELAY
    && s.dialed == 0 && s.taken == [] && s.closed == {} && s.waits == []
  }

  function Sockets(idle: seq<Idle>): set<nat> {
    set i | 0 <= i < |idle| :: idle[i].socket
  }

  /** A request takes from the pool; what it passed over is closed. */
  ghost predicate TakeStep(s: System, s': System) {
    exists r: Option<nat> ::
      Took(s.idle, s'.idle, r, s'.world, s.timeout)
      && s.world.Before(s'.world)
      && s' == s.(world := s'.world, idle := s'.idle,
                  taken := s.taken + if r.Some? then [r.value] else [],
                  closed := s.closed + (Sockets(s.idle) - Sockets(s'.idle) - if r.Some? then {r.value} else {}))
  }

  /** The task looks at the pool: it sleeps beside a full one, and dials for a short one, after a
      wait if a peer proved hostile. */
  ghost predicate LookStep(s: System, s': System) {
    s.task == Looking && s.world.Before(s'.world)
    && exists r: Refresh ::
      Refreshed(s.idle, s'.idle, r, s.world, s'.world, s.minIdle, s.timeout)
      && var looked := s.(world := s'.world, idle := s'.idle,
                          closed := s.closed + (Sockets(s.idle) - Sockets(s'.idle)));
         s' == match r
               case Full(_) => looked.(task := Asleep, backoff := FIRST_DELAY, waits := [])
               case Short(closedByPeer) => if closedByPeer > 0 then Waiting(looked, true) else looked.(task := Dialing)
  }

  /** Starting to wait uses up the next delay. */
  function Waiting(s: System, thenDial: bool): System {
    s.(task := BackingOff(thenDial), backoff := Doubled(s.backoff), waits := s.waits + [s.backoff])
  }

  /** A take, an expiry or the recheck wakes the task; a wait ends; a dial succeeds or fails; the
      dialed socket is parked, or closed if the pool is at its watermark. */
  ghost predicate TaskStep(s: System, s': System) {
    match s.task
    case Looking => LookStep(s, s')
    case Asleep => s' == s.(task := Looking)
    case BackingOff(thenDial) => s' == s.(task := if thenDial then Dialing else Looking)
    case Dialing =>
      s' == s.(task := Holding(s.dialed), dialed := s.dialed + 1) || s' == Waiting(s, false)
    case Holding(socket) =>
      s' == (if |s.idle| < s.minIdle then s.(idle := s.idle + [Idle(socket, s.world.now)])
             else s.(closed := s.closed + {socket})).(task := Looking)
  }

  /** Time passes, and peers close or talk. */
  ghost predicate WorldStep(s: System, s': System) {
    s.world.Before(s'.world) && s' == s.(world := s'.world)
  }

  ghost predicate Next(s: System, s': System) {
    TakeStep(s, s') || TaskStep(s, s') || WorldStep(s, s')
  }

  ghost predicate IsRun(run: seq<System>) {
    run != [] && Init(run[0]) && forall i | 0 <= i < |run| - 1 :: Next(run[i], run[i + 1])
  }

  // ---------- What every step keeps ----------

  /** A dial that is decided on, under way or done but not yet parked. */
  function InFlight(task: Task): nat {
    match task
    case BackingOff(thenDial) => if thenDial then 1 else 0
    case Dialing => 1
    case Holding(_) => 1
    case _ => 0
  }

  function Held(task: Task): set<nat> {
    if task.Holding? then {task.socket} else {}
  }

  function Range(n: nat): set<nat> {
    if n == 0 then {} else Range(n - 1) + {n - 1}
  }

  lemma {:induction false} RangeHolds(n: nat)
    ensures forall k: nat :: k in Range(n) <==> k < n
  {
    if n > 0 {
      RangeHolds(n - 1);
    }
  }

  ghost predicate Distinct(s: seq<nat>) {
    forall i, j | 0 <= i < j < |s| :: s[i] != s[j]
  }

  function Elements(s: seq<nat>): set<nat> {
    set i | 0 <= i < |s| :: s[i]
  }

  /** Every socket ever dialed is in exactly one place, and nothing else is anywhere. */
  ghost predicate Accounted(s: System) {
    Sockets(s.idle) !! Elements(s.taken) !! s.closed !! Held(s.task)
    && Sockets(s.idle) + Elements(s.taken) + s.closed + Held(s.task) == Range(s.dialed)
  }

  ghost predicate Inv(s: System) {
    && Parked(s.idle, s.world)
    && Accounted(s) && Distinct(s.taken)
    && |s.idle| + InFlight(s.task) <= s.minIdle
    && s.backoff == Delay(|s.waits|)
    && forall k | 0 <= k < |s.waits| :: s.waits[k] == Delay(k)
  }

  lemma InitKeeps(s: System)
    requires Init(s)
    ensures Inv(s)
  {
  }

  lemma SocketsAppend(idle: seq<Idle>, e: Idle)
    ensures Sockets(idle + [e]) == Sockets(idle) + {e.socket}
  {
    var longer := idle + [e];
    assert forall i | 0 <= i < |idle| :: longer[i] == idle[i];
    assert longer[|idle|] == e;
  }

  lemma ElementsAppend(s: seq<nat>, x: nat)
    ensures Elements(s + [x]) == Elements(s) + {x}
  {
    var longer := s + [x];
    assert forall i | 0 <= i < |s| :: longer[i] == s[i];
    assert longer[|s|] == x;
  }

  lemma TakenIsGone(before: seq<Idle>, after: seq<Idle>, r: Option<nat>, w: World, earlier: World, timeout: nat)
    requires Took(before, after, r, w, timeout) && Parked(before, earlier)
    ensures Sockets(after) <= Sockets(before) && |after| <= |before|
    ensures r.Some? ==> r.value in Sockets(before) && r.value !in Sockets(after)
    ensures earlier.Before(w) ==> Parked(after, w)
  {
    if r.Some? {
      assert before[|after|].socket == r.value;
      assert forall i | 0 <= i < |after| :: after[i] == before[i];
    }
  }

  lemma TakeKeeps(s: System, s': System)
    requires Inv(s) && TakeStep(s, s')
    ensures Inv(s')
  {
    var r: Option<nat> :| Took(s.idle, s'.idle, r, s'.world, s.timeout)
      && s' == s.(world := s'.world, idle := s'.idle,
                  taken := s.taken + if r.Some? then [r.value] else [],
                  closed := s.closed + (Sockets(s.idle) - Sockets(s'.idle) - if r.Some? then {r.value} else {}));
    TakenIsGone(s.idle, s'.idle, r, s'.world, s.world, s.timeout);
    hide Took, Parked, Range, Sockets;
    if r.Some? {
      ElementsAppend(s.taken, r.value);
      TakeAccounts(Sockets(s.idle), Elements(s.taken), s.closed, Held(s.task), Sockets(s'.idle), r.value);
      forall i | 0 <= i < |s.taken| ensures s.taken[i] != r.value {
        assert s.taken[i] in Elements(s.taken);
      }
    } else {
      assert s.taken + [] == s.taken;
      DropAccounts(Sockets(s.idle), Elements(s.taken), s.closed, Held(s.task), Sockets(s'.idle));
    }
  }

  /** Handing one socket out and closing the others keeps the places disjoint and complete. */
  lemma TakeAccounts(idle: set<nat>, taken: set<nat>, closed: set<nat>, held: set<nat>, idle': set<nat>, x: nat)
    requires idle !! taken !! closed !! held && idle' <= idle && x in idle && x !in idle'
    ensures idle' !! (taken + {x}) !! (closed + (idle - idle' - {x})) !! held
    ensures idle' + (taken + {x}) + (closed + (idle - idle' - {x})) + held == idle + taken + closed + held
  {
  }

  lemma DropAccounts(idle: set<nat>, taken: set<nat>, closed: set<nat>, held: set<nat>, idle': set<nat>)
    requires idle !! taken !! closed !! held && idle' <= idle
    ensures idle' !! taken !! (closed + (idle - idle')) !! held
    ensures idle' + taken + (closed + (idle - idle')) + held == idle + taken + closed + held
    ensures closed + (idle - idle' - {}) == closed + (idle - idle')
  {
  }

  lemma LookKeeps(s: System, s': System)
    requires Inv(s) && LookStep(s, s')
    ensures Inv(s')
  {
    KeptStaysParked(s.idle, s'.idle, s.world);
    KeptIsShorter(s.idle, s'.idle);
    assert Parked(s'.idle, s'.world);
    assert Sockets(s'.idle) <= Sockets(s.idle) by {
      forall i | 0 <= i < |s'.idle| ensures s'.idle[i].socket in Sockets(s.idle) {
        var j :| 0 <= j < |s.idle| && s.idle[j] == s'.idle[i];
      }
    }
    DropAccounts(Sockets(s.idle), Elements(s.taken), s.closed, {}, Sockets(s'.idle));
    DelayDoubles(|s.waits|);
  }

  lemma PutKeeps(s: System, s': System)
    requires Inv(s) && s.task.Holding? && TaskStep(s, s')
    ensures Inv(s') && s'.idle == s.idle + [Idle(s.task.socket, s.world.now)]
  {
    var socket := s.task.socket;
    SocketsAppend(s.idle, Idle(socket, s.world.now));
    assert socket in Held(s.task);
    forall i | 0 <= i < |s.idle| ensures s.idle[i].socket != socket {
      assert s.idle[i].socket in Sockets(s.idle);
    }
  }

  lemma TaskKeeps(s: System, s': System)
    requires Inv(s) && !s.task.Looking? && TaskStep(s, s')
    ensures Inv(s')
  {
    DelayDoubles(|s.waits|);
    match s.task
    case Holding(_) => PutKeeps(s, s');
    case Dialing => RangeHolds(s.dialed);
    case _ =>
  }

  lemma NextKeeps(s: System, s': System)
    requires Inv(s) && Next(s, s')
    ensures Inv(s')
  {
    hide Inv, TakeStep, LookStep;
    if TakeStep(s, s') {
      TakeKeeps(s, s');
    } else if TaskStep(s, s') {
      if s.task.Looking? {
        LookKeeps(s, s');
      } else {
        TaskKeeps(s, s');
      }
    } else {
      WorldKeeps(s, s');
    }
  }

  lemma WorldKeeps(s: System, s': System)
    requires Inv(s) && WorldStep(s, s')
    ensures Inv(s')
  {
  }

  /** In every state of every run: the parked sockets and the dial in flight never exceed the
      watermark; each socket ever dialed is in exactly one place, so none is handed out twice
      or parked again; the list is in parking order; and the waits follow the backoff. */
  lemma {:induction false} EveryStateIsGood(run: seq<System>, i: nat)
    requires IsRun(run) && i < |run|
    ensures Inv(run[i])
  {
    hide Inv, Next, Init;
    if i == 0 {
      InitKeeps(run[0]);
    } else {
      EveryStateIsGood(run, i - 1);
      assert Next(run[i - 1], run[(i - 1) + 1]);
      NextKeeps(run[i - 1], run[i]);
    }
  }

  /** A look that loses an in-time socket to its peer never dials at once: the task waits first, with one
      more step of the backoff, unless the pool is at its watermark all the same. */
  lemma HostilePeerDelaysTheDial(run: seq<System>, i: nat, k: nat)
    requires IsRun(run) && i + 1 < |run| && LookStep(run[i], run[i + 1])
    requires k < |run[i].idle| && run[i].idle[k] !in run[i + 1].idle
    requires InTime(run[i].idle[k], run[i + 1].world.now, run[i].timeout)
    ensures run[i + 1].task == if |run[i + 1].idle| < run[i].minIdle then BackingOff(true) else Asleep
    ensures |run[i + 1].idle| < run[i].minIdle ==> run[i + 1].waits == run[i].waits + [Delay(|run[i].waits|)]
  {
    var s, s' := run[i], run[i + 1];
    EveryStateIsGood(run, i);
    hide Accounted, CountsHostile, Subsequence, Usable;
    var r: Refresh :| Refreshed(s.idle, s'.idle, r, s.world, s'.world, s.minIdle, s.timeout)
      && var looked := s.(world := s'.world, idle := s'.idle,
                          closed := s.closed + (Sockets(s.idle) - Sockets(s'.idle)));
         s' == match r
               case Full(_) => looked.(task := Asleep, backoff := FIRST_DELAY, waits := [])
               case Short(closedByPeer) => if closedByPeer > 0 then Waiting(looked, true) else looked.(task := Dialing);
    if r.Short? {
      ReportMeans(s.idle, s'.idle, r.closedByPeer, s.world, s'.world, s.timeout);
    }
  }

  /** A failed dial is followed by one wait of the next delay, after which the task looks again. */
  lemma FailedDialIsWaitedOut(run: seq<System>, i: nat)
    requires IsRun(run) && i + 1 < |run| && run[i].task.Dialing? && TaskStep(run[i], run[i + 1])
    requires run[i + 1].dialed == run[i].dialed
    ensures run[i + 1].task == BackingOff(false)
    ensures run[i + 1].waits == run[i].waits + [Delay(|run[i].waits|)]
  {
    EveryStateIsGood(run, i);
  }

  /** The wait for a hostile peer ends in the dial that it put off, any other in another look; and no wait
      is cut short into anything else. */
  lemma WaitEndsInItsCause(s: System, s': System)
    requires s.task.BackingOff? && TaskStep(s, s')
    ensures s'.task == (if s.task.thenDial then Dialing else Looking)
    ensures s'.idle == s.idle && s'.waits == s.waits && s'.dialed == s.dialed
  {
  }

  /** And nothing but a failed dial or a look that lost a socket to its peer starts a wait. */
  lemma OnlySetbacksAreWaitedOut(run: seq<System>, i: nat)
    requires IsRun(run) && i + 1 < |run| && |run[i + 1].waits| > |run[i].waits|
    ensures (run[i].task.Dialing? && run[i + 1].dialed == run[i].dialed)
            || (run[i].task.Looking?
                && exists k | 0 <= k < |run[i].idle| ::
                     run[i].idle[k] !in run[i + 1].idle && run[i].idle[k].socket in run[i + 1].world.unusable)
  {
    var s, s' := run[i], run[i + 1];
    EveryStateIsGood(run, i);
    assert Next(s, s');
    if s.task.Looking? && LookStep(s, s') {
      hide Accounted, CountsHostile, Subsequence, Usable;
      var r: Refresh :| Refreshed(s.idle, s'.idle, r, s.world, s'.world, s.minIdle, s.timeout)
        && var looked := s.(world := s'.world, idle := s'.idle,
                            closed := s.closed + (Sockets(s.idle) - Sockets(s'.idle)));
           s' == match r
                 case Full(_) => looked.(task := Asleep, backoff := FIRST_DELAY, waits := [])
                 case Short(closedByPeer) => if closedByPeer > 0 then Waiting(looked, true) else looked.(task := Dialing);
      ReportMeans(s.idle, s'.idle, r.closedByPeer, s.world, s'.world, s.timeout);
    }
  }

  /** So a dialed socket is never thrown away: whenever the task holds one, it is parked. */
  lemma DialedIsParked(run: seq<System>, i: nat)
    requires IsRun(run) && i + 1 < |run| && run[i].task.Holding? && TaskStep(run[i], run[i + 1])
    ensures run[i + 1].idle == run[i].idle + [Idle(run[i].task.socket, run[i].world.now)]
    ensures run[i + 1].closed == run[i].closed
  {
    EveryStateIsGood(run, i);
  }

  /** The total time waited since the pool was last full. */
  function Sum(s: seq<nat>): nat {
    if s == [] then 0 else Sum(s[..|s| - 1]) + s[|s| - 1]
  }

  lemma {:induction false} SumOfDelays(waits: seq<nat>)
    requires forall k | 0 <= k < |waits| :: waits[k] == Delay(k)
    ensures Sum(waits) == TotalDelay(|waits|)
  {
    if waits != [] {
      SumOfDelays(waits[..|waits| - 1]);
    }
  }

  /** In every run, the n waits since the pool was last full add up to the closed form. */
  lemma WaitsAddUp(run: seq<System>, i: nat)
    requires IsRun(run) && i < |run| && |run[i].waits| >= 6
    ensures Sum(run[i].waits) == 31500 + 30000 * (|run[i].waits| - 6)
  {
    EveryStateIsGood(run, i);
    SumOfDelays(run[i].waits);
    TotalDelayIs(|run[i].waits|);
  }
}

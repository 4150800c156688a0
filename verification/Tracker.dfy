/** The book of tracked connections and the proxy-wide counters, under any interleaving of the
    atomic steps of concurrent calls. */
module Tracker {
  import opened Results
  import opened Sums

  const HISTORY_LEN: nat := 200

  /** Byte counters are 64 bits wide and wrap around. */
  const WRAP: nat := 0x1_0000_0000_0000_0000

  datatype Kind = Tunnel | Http(verb: string, status: Option<nat>)

  datatype ConnectionState = Connecting | Open | Closed | Failed(reason: string)

  datatype Fields = Fields(kind: Kind, route: string, state: ConnectionState)

  datatype Entry = Entry(target: string, up: nat, down: nat, failed: bool, fields: Fields)

  datatype Snapshot = Snapshot(id: nat, target: string, bytesUp: nat, bytesDown: nat, fields: Fields)

  function SnapshotOf(id: nat, e: Entry): Snapshot {
    Snapshot(id, e.target, e.up, e.down, e.fields)
  }

  /** What a reader of a snapshot may take from it. */
  predicate Shows(s: Snapshot, id: nat, e: Entry) {
    s.id == id && s.target == e.target && s.bytesUp == e.up && s.bytesDown == e.down && s.fields == e.fields
  }

  // ---------- What the locked updates do to the fields ----------

  datatype Change = SetRoute(route: string) | SetOpen | SetStatus(status: nat) | SetFailed(reason: string) | SetClosed

  function Changed(f: Fields, change: Change): Fields {
    match change
    case SetRoute(route) => f.(route := route)
    case SetOpen => if f.state.Connecting? then f.(state := Open) else f
    case SetStatus(status) => if f.kind.Http? then f.(kind := f.kind.(status := Some(status))) else f
    case SetFailed(reason) => f.(state := Failed(reason))
    case SetClosed => if f.state.Failed? then f else f.(state := Closed)
  }

  /** Each update touches one thing: the route; the status of an HTTP exchange, never of a tunnel; or the
      state, which opens only from connecting and closes unless it failed. */
  lemma ChangeMeans(f: Fields, change: Change)
    ensures var f' := Changed(f, change);
            (f'.route == if change.SetRoute? then change.route else f.route)
            && (f'.kind == if change.SetStatus? && f.kind.Http? then Http(f.kind.verb, Some(change.status)) else f.kind)
            && (change.SetRoute? || change.SetStatus? ==> f'.state == f.state)
            && (change.SetOpen? ==> f'.state == if f.state == Connecting then Open else f.state)
            && (change.SetFailed? ==> f'.state == Failed(change.reason))
            && (change.SetClosed? ==> if f.state.Failed? then f'.state == f.state else f'.state == Closed)
  {
  }

  /** The history after one more connection is filed. */
  function Filed(closed: seq<Snapshot>, finished: Snapshot): seq<Snapshot> {
    (if |closed| == HISTORY_LEN then closed[1..] else closed) + [finished]
  }

  /** The last connections of the whole record. */
  function Recent(filed: seq<Snapshot>): seq<Snapshot> {
    if |filed| <= 200 then filed else filed[|filed| - 200..]
  }

  lemma FilingKeepsRecent(filed: seq<Snapshot>, finished: Snapshot)
    ensures Filed(Recent(filed), finished) == Recent(filed + [finished])
    ensures |Recent(filed)| == if |filed| < HISTORY_LEN then |filed| else HISTORY_LEN
  {
  }

  // ---------- The book ----------

  class Book {
    /** The unfinished connections by id; `entries` is where their counters and fields live. */
    var open: set<nat>
    var closed: seq<Snapshot>
    var entries: seq<Entry>

    constructor ()
      ensures open == {} && closed == [] && entries == []
    {
      open, closed, entries := {}, [], [];
    }

    ghost predicate Valid()
      reads this
    {
      |closed| <= HISTORY_LEN && forall id | id in open :: 1 <= id <= |entries|
    }

    /** A new connection gets the next id. */
    method Start(kind: Kind, target: string, route: string) returns (id: nat)
      requires Valid()
      modifies this
      ensures Valid() && id == |old(entries)| + 1 && closed == old(closed)
      ensures entries == old(entries) + [Entry(target, 0, 0, false, Fields(kind, route, Connecting))]
      ensures open == old(open) + {id}
    {
      entries := entries + [NewEntry(kind, target, route)];
      id := |entries|;
      open := open + {id};
    }

    method Close(id: nat)
      requires Valid() && id in open
      modifies this
      ensures Valid() && open == old(open) - {id} && |entries| == |old(entries)|
      ensures var e := old(entries)[id - 1];
              entries == old(entries)[id - 1 := e.(fields := Changed(e.fields, SetClosed))]
              && closed == Filed(old(closed), SnapshotOf(id, entries[id - 1]))
              && Shows(closed[|closed| - 1], id, entries[id - 1])
    {
      var e := entries[id - 1];
      entries := entries[id - 1 := e.(fields := if e.fields.state.Failed? then e.fields else e.fields.(state := Closed))];
      var finished := SnapshotOf(id, entries[id - 1]);
      open := open - {id};
      if |closed| == HISTORY_LEN {
        closed := closed[1..];
      }
      closed := closed + [finished];
    }

    /** Open connections by strictly descending id, then the history newest first. */
    method TakeSnapshot() returns (all: seq<Snapshot>)
      requires Valid()
      ensures |open| <= |all| && ListsOpen(all[..|open|], open, entries)
      ensures all[|open|..] == NewestFirst(closed)
    {
      hide ListsOpen, NewestFirst;
      var listed := OpenDescending();
      ListedCount(listed, open, entries);
      all := listed;
      var i := |closed|;
      assert closed[..i] == closed;
      while i > 0
        invariant 0 <= i <= |closed|
        invariant all + NewestFirst(closed[..i]) == listed + NewestFirst(closed)
      {
        i := i - 1;
        NewestFirstStep(all, closed, i);
        all := all + [closed[i]];
      }
      NewestFirstStep(all, [], 0);
      assert closed[..0] == [];
      assert all[..|open|] == listed && all[|open|..] == NewestFirst(closed);
    }

    /** The open connections in the reverse order of the map's keys. */
    method OpenDescending() returns (listed: seq<Snapshot>)
      requires Valid()
      ensures ListsOpen(listed, open, entries)
    {
      listed := [];
      var left := open;
      assert open - left == {} && ListsOpen([], {}, entries);
      hide ListsOpen;
      while left != {}
        invariant left <= open
        invariant ListsOpen(listed, open - left, entries)
        invariant forall i, id | 0 <= i < |listed| && id in left :: listed[i].id > id
        decreases |left|
      {
        ghost var largest := HasLargest(left);
        assert largest in left && forall k | k in left :: k <= largest;
        var id :| id in left && forall k | k in left :: k <= id;
        ListsOneMore(listed, open - left, entries, id);
        listed := listed + [SnapshotOf(id, entries[id - 1])];
        assert open - left + {id} == open - (left - {id});
        left := left - {id};
      }
      assert open - left == open;
    }
  }

  function NewestFirst(s: seq<Snapshot>): seq<Snapshot> {
    if s == [] then [] else [s[|s| - 1]] + NewestFirst(s[..|s| - 1])
  }

  /** `listed` holds a current copy of each connection of `ids`, once, by descending id. */
  ghost predicate ListsOpen(listed: seq<Snapshot>, ids: set<nat>, entries: seq<Entry>) {
    |listed| == |ids|
    && (forall i, j | 0 <= i < j < |listed| :: listed[i].id > listed[j].id)
    && forall i | 0 <= i < |listed| ::
         listed[i].id in ids && 1 <= listed[i].id <= |entries|
         && Shows(listed[i], listed[i].id, entries[listed[i].id - 1])
  }

  lemma ListedCount(listed: seq<Snapshot>, ids: set<nat>, entries: seq<Entry>)
    requires ListsOpen(listed, ids, entries)
    ensures |listed| == |ids|
  {
  }

  lemma NewestFirstStep(all: seq<Snapshot>, closed: seq<Snapshot>, i: nat)
    ensures i < |closed| ==>
              all + NewestFirst(closed[..i + 1]) == all + [closed[i]] + NewestFirst(closed[..i])
    ensures all + NewestFirst([]) == all
  {
    if i < |closed| {
      assert closed[..i + 1][..i] == closed[..i];
    }
  }

  lemma ListsOneMore(listed: seq<Snapshot>, ids: set<nat>, entries: seq<Entry>, id: nat)
    requires ListsOpen(listed, ids, entries) && id !in ids && 1 <= id <= |entries|
    requires forall i | 0 <= i < |listed| :: listed[i].id > id
    ensures ListsOpen(listed + [SnapshotOf(id, entries[id - 1])], ids + {id}, entries)
  {
  }

  function NewEntry(kind: Kind, target: string, route: string): Entry {
    Entry(target, 0, 0, false, Fields(kind, route, Connecting))
  }

  lemma {:induction false} HasLargest(s: set<nat>) returns (largest: nat)
    requires s != {}
    ensures largest in s && forall k | k in s :: k <= largest
    decreases |s|
  {
    var x :| x in s;
    largest := x;
    if s != {x} {
      var m := HasLargest(s - {x});
      largest := if x > m then x else m;
      assert forall k | k in s :: k == x || k in s - {x};
    }
  }

  // ---------- Concurrent calls, one atomic step at a time ----------

  /** A call between two of its atomic steps; entries are named by their index, one below the id. */
  datatype Call =
    | Registering(e: nat)
    | CountingRequest(e: nat)
    | AddingUp(e: nat, n: nat)
    | CountingUp(e: nat, n: nat)
    | AddingDown(e: nat, n: nat)
    | CountingDown(e: nat, n: nat)
    | Updating(e: nat, change: Change)
    | Failing(e: nat, reason: string)
    | CountingFailure(e: nat, reason: string)
    | RecordingFailure(e: nat, reason: string)
    | Closing(e: nat)
    | Snapping(e: nat)
    | Filing(e: nat, finished: Snapshot)
    | Returned

  /** The life of a handle: being started, in the book but not yet returned, owned by a caller, being
      dropped by its last owner, gone. */
  datatype Life = Starting | Registered | Live | Dropping | Gone

  /** `filed` is every connection ever closed, in order; the history is its end. */
  datatype System = System(
    entries: seq<Entry>, life: seq<Life>, open: set<nat>, closed: seq<Snapshot>, filed: seq<Snapshot>,
    totalRequests: nat, failedRequests: nat, bytesIn: nat, bytesOut: nat, calls: seq<Call>)
  {
    function WithEntry(e: nat, entry: Entry): System
      requires e < |entries|
    {
      this.(entries := entries[e := entry])
    }

    function WithLife(e: nat, l: Life): System
      requires e < |life|
    {
      this.(life := life[e := l])
    }

    function WithCall(c: nat, call: Call): System
      requires c < |calls|
    {
      this.(calls := calls[c := call])
    }
  }

  ghost predicate Init(s: System) {
    s == System([], [], {}, [], [], 0, 0, 0, 0, [])
  }

  /** The next atomic step of call `c`. */
  function Advanced(s: System, c: nat): System
    requires |s.life| == |s.entries| && c < |s.calls| && !s.calls[c].Returned? && s.calls[c].e < |s.entries|
  {
    var entry := s.entries[s.calls[c].e];
    match s.calls[c]
    case Registering(e) => s.(open := s.open + {e}).WithLife(e, Registered).WithCall(c, CountingRequest(e))
    case CountingRequest(e) => s.(totalRequests := s.totalRequests + 1).WithLife(e, Live).WithCall(c, Returned)
    case AddingUp(e, n) => s.WithEntry(e, entry.(up := (entry.up + n) % WRAP)).WithCall(c, CountingUp(e, n))
    case CountingUp(_, n) => s.(bytesOut := (s.bytesOut + n) % WRAP).WithCall(c, Returned)
    case AddingDown(e, n) => s.WithEntry(e, entry.(down := (entry.down + n) % WRAP)).WithCall(c, CountingDown(e, n))
    case CountingDown(_, n) => s.(bytesIn := (s.bytesIn + n) % WRAP).WithCall(c, Returned)
    case Updating(e, change) =>
      s.WithEntry(e, entry.(fields := Changed(entry.fields, change)))
       .WithCall(c, if change.SetStatus? then Updating(e, SetOpen) else Returned)
    case Failing(e, reason) =>
      if entry.failed then s.WithCall(c, Returned)
      else s.WithEntry(e, entry.(failed := true)).WithCall(c, CountingFailure(e, reason))
    case CountingFailure(e, reason) =>
      s.(failedRequests := s.failedRequests + 1).WithCall(c, RecordingFailure(e, reason))
    case RecordingFailure(e, reason) =>
      s.WithEntry(e, entry.(fields := Changed(entry.fields, SetFailed(reason)))).WithCall(c, Returned)
    case Closing(e) => s.WithEntry(e, entry.(fields := Changed(entry.fields, SetClosed))).WithCall(c, Snapping(e))
    case Snapping(e) => s.WithCall(c, Filing(e, SnapshotOf(e, entry)))
    case Filing(e, finished) =>
      s.(open := s.open - {e}, closed := Filed(s.closed, finished), filed := s.filed + [finished])
       .WithLife(e, Gone).WithCall(c, Returned)
  }

  /** The calls that an owner of a handle may make while it is live. */
  predicate IsOwnerCall(call: Call) {
    call.AddingUp? || call.AddingDown? || call.Failing?
    || (call.Updating? && (call.change.SetRoute? || call.change.SetOpen? || call.change.SetStatus?))
  }

  ghost predicate BeginStart(s: System, s': System) {
    exists kind, target, route ::
      s' == s.(entries := s.entries + [NewEntry(kind, target, route)], life := s.life + [Starting],
               calls := s.calls + [Registering(|s.entries|)])
  }

  ghost predicate BeginCall(s: System, s': System) {
    exists call: Call ::
      IsOwnerCall(call) && call.e < |s.life| && s.life[call.e] == Live && s' == s.(calls := s.calls + [call])
  }

  /** The last owner drops the handle: no other call on it is still running. */
  ghost predicate BeginClose(s: System, s': System) {
    exists e: nat ::
      e < |s.life| && s.life[e] == Live && NoCallOn(s.calls, e)
      && s' == s.(life := s.life[e := Dropping], calls := s.calls + [Closing(e)])
  }

  predicate NoCallOn(calls: seq<Call>, e: nat) {
    forall c | 0 <= c < |calls| :: calls[c].Returned? || calls[c].e != e
  }

  ghost predicate CallStep(s: System, s': System) {
    |s.life| == |s.entries|
    && exists c: nat :: c < |s.calls| && !s.calls[c].Returned? && s.calls[c].e < |s.entries| && s' == Advanced(s, c)
  }

  ghost predicate Next(s: System, s': System) {
    BeginStart(s, s') || BeginCall(s, s') || BeginClose(s, s') || CallStep(s, s')
  }

  ghost predicate IsRun(run: seq<System>) {
    run != [] && Init(run[0]) && forall i | 0 <= i < |run| - 1 :: Next(run[i], run[i + 1])
  }

  // ---------- Invariant 1: who may be running ----------

  /** The life in which a call may be running. */
  function LifeOf(call: Call): Life {
    match call
    case Registering(_) => Starting
    case CountingRequest(_) => Registered
    case Closing(_) => Dropping
    case Snapping(_) => Dropping
    case Filing(_, _) => Dropping
    case _ => Live
  }

  predicate IsRecorder(call: Call) {
    call.CountingFailure? || call.RecordingFailure?
  }

  /** Two calls on one entry run at once only while it is live, and only one of them ever records a
      failure. */
  predicate Compatible(a: Call, b: Call) {
    a.Returned? || b.Returned? || a.e != b.e
    || (LifeOf(a) == Live && LifeOf(b) == Live && !(IsRecorder(a) && IsRecorder(b)))
  }

  /** What a running call relies on in its entry. */
  predicate Consistent(call: Call, entry: Entry) {
    match call
    case Updating(_, change) => change.SetRoute? || change.SetOpen? || change.SetStatus?
    case CountingFailure(_, _) => entry.failed && !entry.fields.state.Failed?
    case RecordingFailure(_, _) => entry.failed && !entry.fields.state.Failed?
    case Snapping(_) => IsFinal(entry.fields.state)
    case Filing(e, finished) =>
      finished == SnapshotOf(e, entry) && IsFinal(entry.fields.state)
    case _ => true
  }

  ghost predicate CallsInv(s: System) {
    && |s.life| == |s.entries|
    && (forall c | 0 <= c < |s.calls| :: s.calls[c].Returned? ||
          (s.calls[c].e < |s.entries| && s.life[s.calls[c].e] == LifeOf(s.calls[c])
           && Consistent(s.calls[c], s.entries[s.calls[c].e])))
    && (forall c, d | 0 <= c < d < |s.calls| :: Compatible(s.calls[c], s.calls[d]))
    && EndsInv(s.entries, s.life)
  }

  // ---------- Invariant 2: each connection is in exactly one place ----------

  /** The record holds each connection that is gone, once, as it was when it went. */
  ghost predicate FiledInv(entries: seq<Entry>, life: seq<Life>, filed: seq<Snapshot>) {
    && |life| == |entries|
    && (forall k | 0 <= k < |filed| ::
          filed[k].id < |entries| && life[filed[k].id] == Gone
          && filed[k] == SnapshotOf(filed[k].id, entries[filed[k].id]) && IsFinal(filed[k].fields.state))
    && (forall j, k | 0 <= j < k < |filed| :: filed[j].id != filed[k].id)
    && (forall e | 0 <= e < |life| && life[e] == Gone :: exists k | 0 <= k < |filed| :: filed[k].id == e)
  }

  predicate IsFinal(state: ConnectionState) {
    state.Failed? || state.Closed?
  }

  ghost predicate PlacesInv(s: System) {
    && FiledInv(s.entries, s.life, s.filed)
    && (forall e: nat :: e in s.open <==> e < |s.life| && s.life[e] in {Registered, Live, Dropping})
    && s.closed == Recent(s.filed)
  }

  // ---------- Invariant 3: conservation ----------

  function UpOf(e: Entry): nat { e.up }
  function DownOf(e: Entry): nat { e.down }
  function FailedOf(e: Entry): nat { if e.failed then 1 else 0 }
  function PendingUp(c: Call): nat { if c.CountingUp? then c.n else 0 }
  function PendingDown(c: Call): nat { if c.CountingDown? then c.n else 0 }
  function PendingRequest(c: Call): nat { if c.Registering? || c.CountingRequest? then 1 else 0 }
  function PendingFailure(c: Call): nat { if c.CountingFailure? then 1 else 0 }

  ghost predicate SumsInv(s: System) {
    && SumBy(UpOf, s.entries) % WRAP == (s.bytesOut + SumBy(PendingUp, s.calls)) % WRAP
    && SumBy(DownOf, s.entries) % WRAP == (s.bytesIn + SumBy(PendingDown, s.calls)) % WRAP
    && |s.entries| == s.totalRequests + SumBy(PendingRequest, s.calls)
    && SumBy(FailedOf, s.entries) == s.failedRequests + SumBy(PendingFailure, s.calls)
    && s.bytesIn < WRAP && s.bytesOut < WRAP
  }

  // ---------- Each step keeps the first invariant ----------

  /** The entry, the life and the running call that a step of call `c` leaves, whatever else it does. */
  lemma StepEffects(s: System, c: nat)
    requires CallsInv(s) && c < |s.calls| && !s.calls[c].Returned?
    ensures var s', e := Advanced(s, c), s.calls[c].e;
            |s'.entries| == |s.entries| && |s'.life| == |s.life| && |s'.calls| == |s.calls|
            && (forall x | 0 <= x < |s.entries| && x != e :: s'.entries[x] == s.entries[x] && s'.life[x] == s.life[x])
            && (forall d | 0 <= d < |s.calls| && d != c :: s'.calls[d] == s.calls[d])
            && (!s'.calls[c].Returned? ==>
                  s'.calls[c].e == e && s'.life[e] == LifeOf(s'.calls[c]) && Consistent(s'.calls[c], s'.entries[e]))
            && (s'.entries[e].fields.state.Failed? ==> s'.entries[e].failed)
            && (s'.entries[e].fields.state.Closed? ==> s'.life[e] == Dropping || s'.life[e] == Gone)
  {
  }

  /** A step of one call leaves every other running call's assumptions true. */
  lemma OthersStayConsistent(s: System, c: nat, d: nat)
    requires CallsInv(s) && c < |s.calls| && d < |s.calls| && c != d
    requires !s.calls[c].Returned? && !s.calls[d].Returned?
    ensures var s' := Advanced(s, c);
            s'.life[s.calls[d].e] == s.life[s.calls[d].e]
            && Consistent(s.calls[d], s'.entries[s.calls[d].e])
            && Compatible(s'.calls[c], s.calls[d])
  {
    assert if c < d then Compatible(s.calls[c], s.calls[d]) else Compatible(s.calls[d], s.calls[c]);
  }

  lemma CompatibleIsSymmetric(a: Call, b: Call)
    requires Compatible(a, b)
    ensures Compatible(b, a)
  {
  }

  /** Failed entries stay marked as failed, and only entries being dropped are closed. */
  ghost predicate EndsInv(entries: seq<Entry>, life: seq<Life>) {
    && |life| == |entries|
    && (forall e | 0 <= e < |entries| :: entries[e].fields.state.Failed? ==> entries[e].failed)
    && (forall e | 0 <= e < |entries| :: entries[e].fields.state.Closed? ==> life[e] == Dropping || life[e] == Gone)
  }

  lemma CallStepKeepsEnds(s: System, c: nat)
    requires CallsInv(s) && c < |s.calls| && !s.calls[c].Returned?
    ensures EndsInv(Advanced(s, c).entries, Advanced(s, c).life)
  {
    StepEffects(s, c);
    hide Advanced, Consistent, Compatible;
  }

  lemma CallStepKeepsCalls(s: System, c: nat)
    requires CallsInv(s) && c < |s.calls| && !s.calls[c].Returned?
    ensures CallsInv(Advanced(s, c))
  {
    var s' := Advanced(s, c);
    StepEffects(s, c);
    CallStepKeepsEnds(s, c);
    hide Advanced, Consistent, Compatible, EndsInv;
    forall d | 0 <= d < |s.calls| && d != c && !s.calls[d].Returned?
      ensures s'.life[s.calls[d].e] == LifeOf(s.calls[d]) && Consistent(s.calls[d], s'.entries[s.calls[d].e])
      ensures Compatible(s'.calls[c], s.calls[d]) && Compatible(s.calls[d], s'.calls[c])
    {
      OthersStayConsistent(s, c, d);
      CompatibleIsSymmetric(s'.calls[c], s.calls[d]);
    }
    forall a, b | 0 <= a < b < |s.calls|
      ensures Compatible(s'.calls[a], s'.calls[b])
    {
      ReturnedIsCompatible(s'.calls[a], s'.calls[b]);
    }
  }

  lemma ReturnedIsCompatible(a: Call, b: Call)
    ensures a.Returned? || b.Returned? ==> Compatible(a, b)
  {
  }

  lemma StartKeepsCalls(s: System, s': System)
    requires CallsInv(s) && BeginStart(s, s')
    ensures CallsInv(s')
  {
  }

  lemma OwnerKeepsCalls(s: System, s': System)
    requires CallsInv(s) && BeginCall(s, s')
    ensures CallsInv(s')
  {
  }

  lemma DropKeepsCalls(s: System, s': System)
    requires CallsInv(s) && BeginClose(s, s')
    ensures CallsInv(s')
  {
    var e: nat :| e < |s.life| && s.life[e] == Live && NoCallOn(s.calls, e)
      && s' == s.(life := s.life[e := Dropping], calls := s.calls + [Closing(e)]);
  }

  // ---------- The second invariant ----------

  /** Only registering and filing move a connection between places; the others leave them alone. */
  lemma QuietStepKeepsPlaces(s: System, c: nat)
    requires CallsInv(s) && PlacesInv(s) && c < |s.calls| && !s.calls[c].Returned?
    requires !s.calls[c].Registering? && !s.calls[c].CountingRequest? && !s.calls[c].Filing?
    ensures PlacesInv(Advanced(s, c))
  {
    var s', e := Advanced(s, c), s.calls[c].e;
    assert s.life[e] == LifeOf(s.calls[c]) && s.life[e] != Gone;
    assert s'.open == s.open && s'.life == s.life && s'.filed == s.filed && s'.closed == s.closed;
    assert forall x | 0 <= x < |s.entries| && x != e :: s'.entries[x] == s.entries[x];
  }

  lemma RegisteringKeepsPlaces(s: System, c: nat)
    requires CallsInv(s) && PlacesInv(s) && c < |s.calls|
    requires s.calls[c].Registering? || s.calls[c].CountingRequest?
    ensures PlacesInv(Advanced(s, c))
  {
    var s', e := Advanced(s, c), s.calls[c].e;
    assert s.life[e] == LifeOf(s.calls[c]);
    assert s'.entries == s.entries && s'.filed == s.filed && s'.closed == s.closed;
  }

  lemma FilingKeepsPlaces(s: System, c: nat)
    requires CallsInv(s) && PlacesInv(s) && c < |s.calls| && s.calls[c].Filing?
    ensures PlacesInv(Advanced(s, c))
  {
    var s', e, finished := Advanced(s, c), s.calls[c].e, s.calls[c].finished;
    assert s.life[e] == Dropping && Consistent(s.calls[c], s.entries[e]);
    FilingKeepsRecent(s.filed, finished);
    FileOne(s.entries, s.life, s.filed, e, finished);
    assert s'.entries == s.entries && s'.open == s.open - {e} && s'.life == s.life[e := Gone];
    hide FiledInv, Recent, Filed, Advanced;
  }

  lemma FileOne(entries: seq<Entry>, life: seq<Life>, filed: seq<Snapshot>, e: nat, finished: Snapshot)
    requires FiledInv(entries, life, filed) && e < |life| && life[e] != Gone
    requires finished == SnapshotOf(e, entries[e]) && IsFinal(finished.fields.state)
    ensures FiledInv(entries, life[e := Gone], filed + [finished])
  {
    var life', filed' := life[e := Gone], filed + [finished];
    assert filed'[|filed|] == finished;
    assert forall k | 0 <= k < |filed| :: filed'[k] == filed[k] && filed[k].id != e;
    forall x | 0 <= x < |life'| && life'[x] == Gone
      ensures exists k | 0 <= k < |filed'| :: filed'[k].id == x
    {
      if x != e {
        var k :| 0 <= k < |filed| && filed[k].id == x;
        assert filed'[k].id == x;
      }
    }
  }

  lemma StartKeepsPlaces(s: System, s': System)
    requires PlacesInv(s) && BeginStart(s, s')
    ensures PlacesInv(s')
  {
    assert forall x | 0 <= x < |s.entries| :: s'.entries[x] == s.entries[x] && s'.life[x] == s.life[x];
  }

  lemma OwnerKeepsPlaces(s: System, s': System)
    requires PlacesInv(s) && (BeginCall(s, s') || BeginClose(s, s'))
    ensures PlacesInv(s')
  {
    if BeginClose(s, s') {
      var e: nat :| e < |s.life| && s.life[e] == Live && NoCallOn(s.calls, e)
        && s' == s.(life := s.life[e := Dropping], calls := s.calls + [Closing(e)]);
      assert forall x | 0 <= x < |s.life| && x != e :: s'.life[x] == s.life[x];
    }
  }

  // ---------- The third invariant ----------

  /** Congruence modulo the width of a byte counter. */
  lemma Congruent(a: nat, b: nat, n: nat, a': nat, b': nat)
    requires a % WRAP == b % WRAP
    ensures a' == a + n && b' == b + n ==> a' % WRAP == b' % WRAP
    ensures a' % WRAP == a % WRAP && b' % WRAP == b % WRAP ==> a' % WRAP == b' % WRAP
  {
    assert WRAP == 0x1_0000_0000_0000_0000;
  }

  /** A counter that wraps differs from the unwrapped sum by a multiple of the width. */
  lemma WrappedSum(rest: int, x: nat, n: nat)
    ensures (rest + (x + n) % WRAP) % WRAP == (rest + x + n) % WRAP
  {
    assert WRAP == 0x1_0000_0000_0000_0000;
  }

  lemma StartKeepsSums(s: System, s': System)
    requires SumsInv(s) && BeginStart(s, s')
    ensures SumsInv(s')
  {
    hide SumBy;
    var e, call := s'.entries[|s.entries|], Registering(|s.entries|);
    SumAppend(UpOf, s.entries, e);
    SumAppend(DownOf, s.entries, e);
    SumAppend(FailedOf, s.entries, e);
    NewCallSums(s, call);
  }

  lemma NewCallSums(s: System, call: Call)
    ensures SumBy(PendingUp, s.calls + [call]) == SumBy(PendingUp, s.calls) + PendingUp(call)
    ensures SumBy(PendingDown, s.calls + [call]) == SumBy(PendingDown, s.calls) + PendingDown(call)
    ensures SumBy(PendingRequest, s.calls + [call]) == SumBy(PendingRequest, s.calls) + PendingRequest(call)
    ensures SumBy(PendingFailure, s.calls + [call]) == SumBy(PendingFailure, s.calls) + PendingFailure(call)
  {
    SumAppend(PendingUp, s.calls, call);
    SumAppend(PendingDown, s.calls, call);
    SumAppend(PendingRequest, s.calls, call);
    SumAppend(PendingFailure, s.calls, call);
  }

  lemma OwnerKeepsSums(s: System, s': System)
    requires SumsInv(s) && (BeginCall(s, s') || BeginClose(s, s'))
    ensures SumsInv(s')
  {
    hide SumBy;
    NewCallSums(s, s'.calls[|s.calls|]);
  }

  lemma MovedCallSums(s: System, c: nat, call: Call)
    requires c < |s.calls|
    ensures var calls := s.calls[c := call];
            SumBy(PendingUp, calls) + PendingUp(s.calls[c]) == SumBy(PendingUp, s.calls) + PendingUp(call)
            && SumBy(PendingDown, calls) + PendingDown(s.calls[c]) == SumBy(PendingDown, s.calls) + PendingDown(call)
            && SumBy(PendingRequest, calls) + PendingRequest(s.calls[c])
            == SumBy(PendingRequest, s.calls) + PendingRequest(call)
            && SumBy(PendingFailure, calls) + PendingFailure(s.calls[c])
            == SumBy(PendingFailure, s.calls) + PendingFailure(call)
  {
    SumUpdate(PendingUp, s.calls, c, call);
    SumUpdate(PendingDown, s.calls, c, call);
    SumUpdate(PendingRequest, s.calls, c, call);
    SumUpdate(PendingFailure, s.calls, c, call);
  }

  lemma ChangedEntrySums(s: System, e: nat, entry: Entry)
    requires e < |s.entries|
    ensures var entries := s.entries[e := entry];
            SumBy(UpOf, entries) + s.entries[e].up == SumBy(UpOf, s.entries) + entry.up
            && SumBy(DownOf, entries) + s.entries[e].down == SumBy(DownOf, s.entries) + entry.down
            && SumBy(FailedOf, entries) + FailedOf(s.entries[e]) == SumBy(FailedOf, s.entries) + FailedOf(entry)
    ensures s.entries[e := s.entries[e]] == s.entries
  {
    SumUpdate(UpOf, s.entries, e, entry);
    SumUpdate(DownOf, s.entries, e, entry);
    SumUpdate(FailedOf, s.entries, e, entry);
  }

  /** A wrapping addition on one side and the same addition on the other. */
  lemma AddedToBoth(sum: nat, was: nat, n: nat, sum': nat, total: nat, total': nat)
    requires sum % WRAP == total % WRAP && total' == total + n
    requires sum' + was == sum + (was + n) % WRAP
    ensures sum' % WRAP == total' % WRAP
  {
    WrappedSum(sum - was, was, n);
    Congruent(sum, total, n, sum + n, total');
  }

  lemma AddingUpKeepsSums(s: System, c: nat)
    requires CallsInv(s) && SumsInv(s) && c < |s.calls| && s.calls[c].AddingUp?
    ensures SumsInv(Advanced(s, c))
  {
    hide SumBy;
    var s', e, n := Advanced(s, c), s.calls[c].e, s.calls[c].n;
    MovedCallSums(s, c, s'.calls[c]);
    ChangedEntrySums(s, e, s'.entries[e]);
    AddedToBoth(SumBy(UpOf, s.entries), s.entries[e].up, n, SumBy(UpOf, s'.entries),
                s.bytesOut + SumBy(PendingUp, s.calls), s'.bytesOut + SumBy(PendingUp, s'.calls));
  }

  lemma AddingDownKeepsSums(s: System, c: nat)
    requires CallsInv(s) && SumsInv(s) && c < |s.calls| && s.calls[c].AddingDown?
    ensures SumsInv(Advanced(s, c))
  {
    hide SumBy;
    var s', e, n := Advanced(s, c), s.calls[c].e, s.calls[c].n;
    MovedCallSums(s, c, s'.calls[c]);
    ChangedEntrySums(s, e, s'.entries[e]);
    AddedToBoth(SumBy(DownOf, s.entries), s.entries[e].down, n, SumBy(DownOf, s'.entries),
                s.bytesIn + SumBy(PendingDown, s.calls), s'.bytesIn + SumBy(PendingDown, s'.calls));
  }

  lemma CountingKeepsSums(s: System, c: nat)
    requires CallsInv(s) && SumsInv(s) && c < |s.calls| && (s.calls[c].CountingUp? || s.calls[c].CountingDown?)
    ensures SumsInv(Advanced(s, c))
  {
    hide SumBy;
    var n := s.calls[c].n;
    MovedCallSums(s, c, Returned);
    assert WRAP == 0x1_0000_0000_0000_0000;
    if s.calls[c].CountingUp? {
      WrappedSum(SumBy(PendingUp, s.calls) - n, s.bytesOut, n);
    } else {
      WrappedSum(SumBy(PendingDown, s.calls) - n, s.bytesIn, n);
    }
  }

  lemma OtherStepKeepsSums(s: System, c: nat)
    requires CallsInv(s) && SumsInv(s) && c < |s.calls| && !s.calls[c].Returned?
    requires !s.calls[c].AddingUp? && !s.calls[c].AddingDown? && !s.calls[c].CountingUp? && !s.calls[c].CountingDown?
    ensures SumsInv(Advanced(s, c))
  {
    hide SumBy;
    var s', e := Advanced(s, c), s.calls[c].e;
    MovedCallSums(s, c, s'.calls[c]);
    ChangedEntrySums(s, e, s'.entries[e]);
    assert s'.calls == s.calls[c := s'.calls[c]] && s'.entries == s.entries[e := s'.entries[e]];
  }

  // ---------- Every interleaving ----------

  ghost predicate Inv(s: System) {
    CallsInv(s) && PlacesInv(s) && SumsInv(s)
  }

  lemma CallStepKeeps(s: System, c: nat)
    requires Inv(s) && c < |s.calls| && !s.calls[c].Returned?
    ensures Inv(Advanced(s, c))
  {
    hide PlacesInv, SumsInv, Advanced;
    CallStepKeepsCalls(s, c);
    match s.calls[c]
    case Registering(_) => RegisteringKeepsPlaces(s, c); OtherStepKeepsSums(s, c);
    case CountingRequest(_) => RegisteringKeepsPlaces(s, c); OtherStepKeepsSums(s, c);
    case Filing(_, _) => FilingKeepsPlaces(s, c); OtherStepKeepsSums(s, c);
    case AddingUp(_, _) => QuietStepKeepsPlaces(s, c); AddingUpKeepsSums(s, c);
    case AddingDown(_, _) => QuietStepKeepsPlaces(s, c); AddingDownKeepsSums(s, c);
    case CountingUp(_, _) => QuietStepKeepsPlaces(s, c); CountingKeepsSums(s, c);
    case CountingDown(_, _) => QuietStepKeepsPlaces(s, c); CountingKeepsSums(s, c);
    case _ => QuietStepKeepsPlaces(s, c); OtherStepKeepsSums(s, c);
  }

  lemma NextKeeps(s: System, s': System)
    requires Inv(s) && Next(s, s')
    ensures Inv(s')
  {
    hide CallsInv, PlacesInv, SumsInv, Advanced, BeginStart, BeginCall, BeginClose;
    if BeginStart(s, s') {
      StartKeepsCalls(s, s');
      StartKeepsPlaces(s, s');
      StartKeepsSums(s, s');
    } else if BeginCall(s, s') {
      OwnerKeepsCalls(s, s');
      OwnerKeepsPlaces(s, s');
      OwnerKeepsSums(s, s');
    } else if BeginClose(s, s') {
      DropKeepsCalls(s, s');
      OwnerKeepsPlaces(s, s');
      OwnerKeepsSums(s, s');
    } else {
      var c: nat :| c < |s.calls| && !s.calls[c].Returned? && s.calls[c].e < |s.entries| && s' == Advanced(s, c);
      CallStepKeeps(s, c);
    }
  }

  lemma InitKeeps(s: System)
    requires Init(s)
    ensures Inv(s)
  {
  }

  lemma {:induction false} EveryStateIsGood(run: seq<System>, i: nat)
    requires IsRun(run) && i < |run|
    ensures Inv(run[i])
  {
    hide Inv, Next, Init;
    if i == 0 {
      InitKeeps(run[0]);
    } else {
      EveryStateIsGood(run, i - 1);
      assert Next(run[i - 1], run[(i - 1) + 1]);
      NextKeeps(run[i - 1], run[i]);
    }
  }

  predicate Quiet(s: System) {
    forall c | 0 <= c < |s.calls| :: s.calls[c].Returned?
  }

  /** Over any interleaving, once all calls have returned: the bytes of all connections ever started,
      whether open, in the history or evicted from it, add up to the proxy-wide totals; every
      connection is counted as one request; and each connection that failed is counted once,
      however often its failure was reported. */
  lemma Conservation(run: seq<System>, i: nat)
    requires IsRun(run) && i < |run| && Quiet(run[i])
    ensures run[i].bytesOut == SumBy(UpOf, run[i].entries) % WRAP
    ensures run[i].bytesIn == SumBy(DownOf, run[i].entries) % WRAP
    ensures run[i].totalRequests == |run[i].entries|
    ensures run[i].failedRequests == SumBy(FailedOf, run[i].entries)
  {
    EveryStateIsGood(run, i);
    var s := run[i];
    SumZero(PendingUp, s.calls);
    SumZero(PendingDown, s.calls);
    SumZero(PendingRequest, s.calls);
    SumZero(PendingFailure, s.calls);
    assert WRAP == 0x1_0000_0000_0000_0000;
  }

  /** At every moment of any interleaving: a connection not still being started is either open or on
      the record of closed ones, never both, and on the record once, with the bytes and the final
      state that its entry has; and the history is exactly the last 200 of the record. */
  lemma OnePlaceEach(run: seq<System>, i: nat, e: nat)
    requires IsRun(run) && i < |run| && e < |run[i].entries|
    ensures var s := run[i];
            |s.life| == |s.entries|
            && (s.life[e] != Starting ==>
              (e in s.open <==> !exists k :: 0 <= k < |s.filed| && s.filed[k].id == e))
    ensures var s := run[i];
            (forall k | 0 <= k < |s.filed| && s.filed[k].id == e ::
               Shows(s.filed[k], e, s.entries[e]) && IsFinal(s.entries[e].fields.state))
            && (forall j, k | 0 <= j < k < |s.filed| :: s.filed[j].id != s.filed[k].id)
    ensures run[i].closed == Recent(run[i].filed)
  {
    EveryStateIsGood(run, i);
    hide CallsInv, SumsInv, Recent;
  }

  /** Recording a status takes two locked updates: the status itself, of an HTTP exchange, and then
      the opening. */
  lemma StatusOpens(s: System, c: nat, status: nat)
    requires CallsInv(s) && c < |s.calls| && s.calls[c].Updating? && s.calls[c].change == SetStatus(status)
    ensures var e := s.calls[c].e;
            var s' := Advanced(s, c);
            var s'' := Advanced(s', c);
            s''.calls[c].Returned?
            && s''.entries[e].fields.state != Connecting
            && (s.entries[e].fields.kind.Http? ==>
                  s''.entries[e].fields.kind == Http(s.entries[e].fields.kind.verb, Some(status)))
            && (s.entries[e].fields.kind.Tunnel? ==> s''.entries[e].fields.kind == Tunnel)
  {
  }

  /** Deciding a route takes one. */
  lemma RouteIsSet(s: System, c: nat, route: string)
    requires CallsInv(s) && c < |s.calls| && s.calls[c].Updating? && s.calls[c].change == SetRoute(route)
    ensures var e, s' := s.calls[c].e, Advanced(s, c);
            s'.calls[c].Returned?
            && s'.entries[e] == s.entries[e].(fields := s.entries[e].fields.(route := route))
  {
  }

  // ---------- Every failure is recorded ----------

  /** A connection that is marked as failed shows it, or the call that will record it is still running. */
  ghost predicate RecordsInv(s: System) {
    forall e | 0 <= e < |s.entries| && s.entries[e].failed ::
      s.entries[e].fields.state.Failed? || exists c | 0 <= c < |s.calls| :: IsRecorder(s.calls[c]) && s.calls[c].e == e
  }

  /** What a step of call `c` does to the record of its entry's failure. */
  lemma StepRecords(s: System, c: nat)
    requires CallsInv(s) && c < |s.calls| && !s.calls[c].Returned?
    ensures var s', e := Advanced(s, c), s.calls[c].e;
            (s.entries[e].fields.state.Failed? ==> s'.entries[e].fields.state.Failed?)
            && (IsRecorder(s'.calls[c]) ==> s'.calls[c].e == e)
            && (IsRecorder(s.calls[c]) || (s'.entries[e].failed && !s.entries[e].failed) ==>
                  s'.entries[e].fields.state.Failed? || IsRecorder(s'.calls[c]))
  {
  }

  lemma CallStepKeepsRecords(s: System, c: nat)
    requires CallsInv(s) && RecordsInv(s) && c < |s.calls| && !s.calls[c].Returned?
    ensures RecordsInv(Advanced(s, c))
  {
    var s' := Advanced(s, c);
    StepEffects(s, c);
    StepRecords(s, c);
    hide Advanced, IsRecorder, Consistent, Compatible, LifeOf, EndsInv;
    forall e | 0 <= e < |s'.entries| && s'.entries[e].failed && !s'.entries[e].fields.state.Failed?
      ensures exists d | 0 <= d < |s'.calls| :: IsRecorder(s'.calls[d]) && s'.calls[d].e == e
    {
      if s.entries[e].failed {
        var d :| 0 <= d < |s.calls| && IsRecorder(s.calls[d]) && s.calls[d].e == e;
        assert IsRecorder(s'.calls[d]) && s'.calls[d].e == e;
      } else {
        assert IsRecorder(s'.calls[c]) && s'.calls[c].e == e;
      }
    }
  }

  lemma NextKeepsRecords(s: System, s': System)
    requires Inv(s) && RecordsInv(s) && Next(s, s')
    ensures RecordsInv(s')
  {
    hide Advanced, PlacesInv, SumsInv;
    if CallStep(s, s') {
      var c: nat :| c < |s.calls| && !s.calls[c].Returned? && s.calls[c].e < |s.entries| && s' == Advanced(s, c);
      CallStepKeepsRecords(s, c);
    } else {
      assert forall c | 0 <= c < |s.calls| :: s'.calls[c] == s.calls[c];
    }
  }

  lemma {:induction false} FailuresAreOnTheWay(run: seq<System>, i: nat)
    requires IsRun(run) && i < |run|
    ensures RecordsInv(run[i])
  {
    hide Inv, Next;
    if i > 0 {
      FailuresAreOnTheWay(run, i - 1);
      EveryStateIsGood(run, i - 1);
      assert Next(run[i - 1], run[(i - 1) + 1]);
      NextKeepsRecords(run[i - 1], run[i]);
    }
  }

  /** Once all calls have returned, the connections marked as failed, which the counter counts, are exactly
      those that show a failure. */
  lemma FailuresShow(run: seq<System>, i: nat, e: nat)
    requires IsRun(run) && i < |run| && Quiet(run[i]) && e < |run[i].entries|
    ensures run[i].entries[e].failed <==> run[i].entries[e].fields.state.Failed?
  {
    EveryStateIsGood(run, i);
    FailuresAreOnTheWay(run, i);
  }

  /** How far a connection has got. */
  function Rank(state: ConnectionState): nat {
    match state
    case Connecting => 0
    case Open => 1
    case Closed => 2
    case Failed(_) => 2
  }

  /** A step only ever moves a connection on, from connecting to open to an end, which no step changes. */
  lemma StateAdvances(s: System, s': System, e: nat)
    requires Inv(s) && Next(s, s') && e < |s.entries|
    ensures e < |s'.entries|
    ensures var state, state' := s.entries[e].fields.state, s'.entries[e].fields.state;
            Rank(state) <= Rank(state') && (Rank(state) == 2 ==> state' == state)
  {
    hide PlacesInv, SumsInv;
  }

  /** In every run a connection that has closed or failed stays as it is. */
  lemma {:induction false} EndIsFinal(run: seq<System>, i: nat, j: nat, e: nat)
    requires IsRun(run) && i <= j < |run| && e < |run[i].entries| && IsFinal(run[i].entries[e].fields.state)
    ensures e < |run[j].entries| && run[j].entries[e].fields.state == run[i].entries[e].fields.state
    decreases j - i
  {
    hide Inv, Next, Init;
    if i < j {
      EveryStateIsGood(run, i);
      assert Next(run[i], run[i + 1]);
      StateAdvances(run[i], run[i + 1], e);
      EndIsFinal(run, i + 1, j, e);
    }
  }
}

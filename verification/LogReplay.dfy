/** The log store's ring and broadcast, and the view that replays the ring and then follows the
    broadcast without showing an event twice. */
module LogReplay {
  import opened Results

  /** An event; `number` is stamped by the store and is 0 before that. */
  datatype LogEvent = LogEvent(number: nat, message: string)

  function Last(s: seq<LogEvent>, n: nat): seq<LogEvent> {
    if |s| <= n then s else s[|s| - n..]
  }

  // ---------- The store ----------

  class LogStore {
    const cap: nat
    var ring: seq<LogEvent>
    var counter: nat
    /** Everything broadcast so far; a subscriber receives it from where it subscribed. */
    var sent: seq<LogEvent>

    constructor (cap: nat)
      ensures Valid() && sent == [] && this.cap == if cap == 0 then 1 else cap
    {
      this.cap := if cap == 0 then 1 else cap;
      ring, counter, sent := [], 0, [];
    }

    /** The broadcast is numbered from 1 without gaps, and the ring holds its end. */
    ghost predicate Valid()
      reads this
    {
      cap >= 1 && counter == |sent| && Numbered(sent) && ring == Last(sent, cap)
    }

    /** A push as one step: number, append to the ring, broadcast. */
    method Push(message: string)
      requires Valid()
      modifies this
      ensures Valid() && sent == old(sent) + [LogEvent(|old(sent)| + 1, message)]
    {
      counter := counter + 1;
      var event := LogEvent(counter, message);
      if |ring| == cap {
        ring := ring[1..];
      }
      ring := ring + [event];
      sent := sent + [event];
    }

    /** The position from which a new subscriber will receive. */
    method Subscribe() returns (from: nat)
      requires Valid()
      ensures from == |sent|
    {
      from := |sent|;
    }

    method RecentEvents() returns (backlog: seq<LogEvent>)
      requires Valid()
      ensures backlog == Last(sent, cap)
    {
      backlog := ring;
    }
  }

  ghost predicate Numbered(log: seq<LogEvent>) {
    forall i | 0 <= i < |log| :: log[i].number == i + 1
  }

  // ---------- The view's buffer ----------

  datatype Buffer = Buffer(capacity: nat, lastNumber: nat, events: seq<LogEvent>)

  function Empty(capacity: nat): Buffer {
    Buffer(capacity, 0, [])
  }

  predicate Seen(b: Buffer, event: LogEvent) {
    event.number != 0 && event.number <= b.lastNumber
  }

  function Pushed(b: Buffer, event: LogEvent): Buffer {
    if Seen(b, event) then b
    else
      Buffer(b.capacity,
             if event.number > b.lastNumber then event.number else b.lastNumber,
             (if |b.events| == b.capacity && b.events != [] then b.events[1..] else b.events) + [event])
  }

  function Fed(b: Buffer, feed: seq<LogEvent>): Buffer
    decreases |feed|
  {
    if feed == [] then b else Fed(Pushed(b, feed[0]), feed[1..])
  }

  class LogBuffer {
    const capacity: nat
    var lastNumber: nat
    var events: seq<LogEvent>

    constructor (capacity: nat)
      ensures State() == Empty(capacity)
    {
      this.capacity, lastNumber, events := capacity, 0, [];
    }

    ghost function State(): Buffer
      reads this
    {
      Buffer(capacity, lastNumber, events)
    }

    method Push(event: LogEvent)
      modifies this
      ensures State() == Pushed(old(State()), event)
    {
      if event.number != 0 && event.number <= lastNumber {
        return;
      }
      if event.number > lastNumber {
        lastNumber := event.number;
      }
      if |events| == capacity && events != [] {
        events := events[1..];
      }
      events := events + [event];
    }

    /** Replays a backlog, as the view does when it opens, or takes in live events. */
    method Follow(feed: seq<LogEvent>)
      modifies this
      ensures State() == Fed(old(State()), feed)
    {
      var i := 0;
      while i < |feed|
        invariant 0 <= i <= |feed|
        invariant Fed(State(), feed[i..]) == Fed(old(State()), feed)
      {
        assert feed[i..][0] == feed[i] && feed[i..][1..] == feed[i + 1..];
        Push(feed[i]);
        i := i + 1;
      }
    }
  }

  // ---------- No gaps and no repeats ----------

  ghost predicate Ascending(events: seq<LogEvent>) {
    forall i, j | 0 <= i < j < |events| :: events[i].number < events[j].number
  }

  ghost predicate AllNewer(b: Buffer, feed: seq<LogEvent>) {
    Ascending(feed) && forall i | 0 <= i < |feed| :: feed[i].number > b.lastNumber
  }

  lemma NewerIsAppended(b: Buffer, event: LogEvent)
    requires b.capacity >= 1 && |b.events| <= b.capacity && event.number > b.lastNumber
    ensures Pushed(b, event) == Buffer(b.capacity, event.number, Last(b.events + [event], b.capacity))
  {
    if |b.events| == b.capacity {
      assert (b.events + [event])[1..] == b.events[1..] + [event];
    }
  }

  lemma RestIsNewer(b: Buffer, feed: seq<LogEvent>)
    requires AllNewer(b, feed) && feed != []
    ensures feed[0].number > b.lastNumber && AllNewer(Pushed(b, feed[0]), feed[1..])
  {
    forall i | 0 <= i < |feed| - 1
      ensures feed[1..][i].number > feed[0].number
    {
      assert feed[1..][i] == feed[i + 1];
    }
  }

  lemma LastIsShort(s: seq<LogEvent>, n: nat)
    ensures |Last(s, n)| <= n
  {
  }

  lemma FedStep(b: Buffer, feed: seq<LogEvent>)
    requires feed != []
    ensures Fed(b, feed) == Fed(Pushed(b, feed[0]), feed[1..])
  {
  }

  lemma Regroup(s: seq<LogEvent>, feed: seq<LogEvent>)
    requires feed != []
    ensures s + [feed[0]] + feed[1..] == s + feed
    ensures |feed| > 1 ==> feed[1..][|feed[1..]| - 1] == feed[|feed| - 1]
  {
  }

  /** Feeding events that are all newer keeps the newest of old and new. */
  lemma {:induction false} FreshIsKept(b: Buffer, feed: seq<LogEvent>)
    requires b.capacity >= 1 && |b.events| <= b.capacity
    requires AllNewer(b, feed)
    ensures Fed(b, feed)
         == Buffer(b.capacity, if feed == [] then b.lastNumber else feed[|feed| - 1].number,
                   Last(b.events + feed, b.capacity))
    decreases |feed|
  {
    if feed == [] {
      assert b.events + feed == b.events;
    } else {
      hide Last, Pushed, AllNewer, Fed;
      var longer, later := b.events + [feed[0]], feed[1..];
      RestIsNewer(b, feed);
      NewerIsAppended(b, feed[0]);
      LastIsShort(longer, b.capacity);
      FreshIsKept(Pushed(b, feed[0]), later);
      LastTwice(longer, later, b.capacity);
      FedStep(b, feed);
      Regroup(b.events, feed);
    }
  }

  lemma LastTwice(a: seq<LogEvent>, c: seq<LogEvent>, n: nat)
    ensures Last(Last(a, n) + c, n) == Last(a + c, n)
  {
  }

  /** Feeding events already seen changes nothing. */
  lemma {:induction false} StaleIsDropped(b: Buffer, feed: seq<LogEvent>)
    requires forall i | 0 <= i < |feed| :: Seen(b, feed[i])
    ensures Fed(b, feed) == b
    decreases |feed|
  {
    if feed != [] {
      StaleIsDropped(b, feed[1..]);
    }
  }

  lemma {:induction false} FedConcat(b: Buffer, x: seq<LogEvent>, y: seq<LogEvent>)
    ensures Fed(b, x + y) == Fed(Fed(b, x), y)
    decreases |x|
  {
    if x == [] {
      assert x + y == y;
    } else {
      assert (x + y)[0] == x[0] && (x + y)[1..] == x[1..] + y;
      FedConcat(Pushed(b, x[0]), x[1..], y);
    }
  }

  /** A view that subscribed after `from` events, replayed the ring of a store that had by then
      broadcast `read` events, and has since received the broadcast up to `upTo`. */
  function View(log: seq<LogEvent>, cap: nat, capacity: nat, from: nat, read: nat, upTo: nat): Buffer
    requires from <= read <= |log| && from <= upTo <= |log|
  {
    Fed(Fed(Empty(capacity), Last(log[..read], cap)), log[from..upTo])
  }

  /** With pushes that are single steps, wherever they fall between subscribing, replaying and
      following: the view holds a contiguous run of the log, each event once, ending at the last
      event replayed or delivered, and never more than its capacity. */
  lemma ViewIsContiguous(log: seq<LogEvent>, cap: nat, capacity: nat, from: nat, read: nat, upTo: nat)
    requires Numbered(log) && cap >= 1 && capacity >= 1
    requires from <= read <= |log| && from <= upTo <= |log|
    ensures var start := if read <= cap then 0 else read - cap;
            var end := if upTo > read then upTo else read;
            View(log, cap, capacity, from, read, upTo).events == Last(log[start..end], capacity)
  {
    var start := if read <= cap then 0 else read - cap;
    var replayed := Buffer(capacity, read, Last(log[start..read], capacity));
    RingIsABacklog(log, cap, start, read);
    BacklogIsReplayed(log, capacity, start, read);
    hide Fed, Last, Numbered;
    if upTo <= read {
      OverlapIsDropped(log, replayed, from, upTo);
    } else {
      LiveFollowsBacklog(log, capacity, start, from, read, upTo);
    }
  }

  /** Others log while the view is being set up. */
  method LogAll(logs: LogStore, messages: seq<string>)
    requires logs.Valid()
    modifies logs
    ensures logs.Valid() && old(logs.sent) <= logs.sent && |logs.sent| == |old(logs.sent)| + |messages|
  {
    for i := 0 to |messages|
      invariant logs.Valid() && old(logs.sent) <= logs.sent && |logs.sent| == |old(logs.sent)| + i
    {
      logs.Push(messages[i]);
    }
  }

  /** The view subscribes, then replays the ring, then follows; `meanwhile` is logged between the first
      two and `later` after them. It ends up with the newest events of an unbroken run of the log,
      nothing missed or shown twice at the seams. */
  method OpenView(logs: LogStore, capacity: nat, meanwhile: seq<string>, later: seq<string>) returns (view: LogBuffer)
    requires logs.Valid() && capacity >= 1
    modifies logs
    ensures logs.Valid() && |logs.sent| == |old(logs.sent)| + |meanwhile| + |later|
    ensures var read := |old(logs.sent)| + |meanwhile|;
            var start := if read <= logs.cap then 0 else read - logs.cap;
            view.events == Last(logs.sent[start..], capacity)
  {
    hide Last, Fed;
    var from := logs.Subscribe();
    LogAll(logs, meanwhile);
    view := new LogBuffer(capacity);
    var backlog := logs.RecentEvents();
    ghost var read := |logs.sent|;
    ghost var replayed := logs.sent;
    view.Follow(backlog);
    LogAll(logs, later);
    view.Follow(logs.sent[from..]);
    ghost var log := logs.sent;
    assert log[..read] == replayed && log[from..] == log[from..|log|];
    ghost var start := if read <= logs.cap then 0 else read - logs.cap;
    assert log[start..] == log[start..|log|];
    ViewIsContiguous(log, logs.cap, capacity, from, read, |log|);
  }

  lemma RingIsABacklog(log: seq<LogEvent>, cap: nat, start: nat, read: nat)
    requires read <= |log| && start == if read <= cap then 0 else read - cap
    ensures Last(log[..read], cap) == log[start..read]
  {
  }

  lemma LiveFollowsBacklog(log: seq<LogEvent>, capacity: nat, start: nat, from: nat, read: nat, upTo: nat)
    requires Numbered(log) && capacity >= 1
    requires start <= read && from <= read < upTo <= |log|
    ensures var replayed := Buffer(capacity, read, Last(log[start..read], capacity));
            Fed(replayed, log[from..upTo]).events == Last(log[start..upTo], capacity)
  {
    hide Fed, Last, Numbered, AllNewer;
    var replayed := Buffer(capacity, read, Last(log[start..read], capacity));
    OverlapIsDropped(log, replayed, from, read);
    assert log[from..upTo] == log[from..read] + log[read..upTo];
    FedConcat(replayed, log[from..read], log[read..upTo]);
    LastIsShort(log[start..read], capacity);
    StretchIsNewer(log, replayed, read, upTo);
    FreshIsKept(replayed, log[read..upTo]);
    LastTwice(log[start..read], log[read..upTo], capacity);
    assert log[start..read] + log[read..upTo] == log[start..upTo];
  }

  lemma StretchIsNewer(log: seq<LogEvent>, b: Buffer, x: nat, y: nat)
    requires Numbered(log) && x <= y <= |log| && b.lastNumber <= x
    ensures AllNewer(b, log[x..y])
  {
  }

  lemma BacklogIsReplayed(log: seq<LogEvent>, capacity: nat, start: nat, read: nat)
    requires Numbered(log) && capacity >= 1 && start <= read <= |log| && (start == read ==> read == 0)
    ensures Fed(Empty(capacity), log[start..read]) == Buffer(capacity, read, Last(log[start..read], capacity))
  {
    hide Fed, Last, AllNewer;
    StretchIsNewer(log, Empty(capacity), start, read);
    FreshIsKept(Empty(capacity), log[start..read]);
    assert [] + log[start..read] == log[start..read];
  }

  lemma OverlapIsDropped(log: seq<LogEvent>, b: Buffer, from: nat, upTo: nat)
    requires Numbered(log) && from <= upTo <= |log| && upTo <= b.lastNumber
    ensures Fed(b, log[from..upTo]) == b
  {
    StaleIsDropped(b, log[from..upTo]);
  }

  // ---------- Pushes split into steps ----------

  ghost predicate Stamped(feed: seq<LogEvent>) {
    forall i | 0 <= i < |feed| :: feed[i].number > 0
  }

  ghost predicate Orderly(b: Buffer) {
    Ascending(b.events) && |b.events| <= b.capacity
    && forall i | 0 <= i < |b.events| :: b.events[i].number <= b.lastNumber
  }

  /** Whatever order stamped events arrive in, the numbers in the view strictly increase and the view
      never outgrows its capacity. */
  lemma {:induction false} ViewAlwaysAscends(b: Buffer, feed: seq<LogEvent>)
    requires Orderly(b) && b.capacity >= 1 && Stamped(feed)
    ensures Orderly(Fed(b, feed))
    decreases |feed|
  {
    if feed != [] {
      ViewAlwaysAscends(Pushed(b, feed[0]), feed[1..]);
    }
  }

  /** So the capacity bounds the view exactly when it is positive: a view of capacity 0 still takes its
      first event in. */
  lemma CapacityHoldsIffPositive(capacity: nat)
    ensures (forall feed | Stamped(feed) :: |Fed(Empty(capacity), feed).events| <= capacity) <==> capacity >= 1
  {
    if capacity >= 1 {
      forall feed | Stamped(feed)
        ensures |Fed(Empty(capacity), feed).events| <= capacity
      {
        ViewAlwaysAscends(Empty(capacity), feed);
        CapacityIsFixed(Empty(capacity), feed);
      }
    } else {
      var feed := [LogEvent(1, "")];
      assert Stamped(feed) && feed[1..] == [];
      assert Fed(Empty(0), feed) == Fed(Pushed(Empty(0), feed[0]), []);
    }
  }

  lemma {:induction false} CapacityIsFixed(b: Buffer, feed: seq<LogEvent>)
    ensures Fed(b, feed).capacity == b.capacity
    decreases |feed|
  {
    if feed != [] {
      CapacityIsFixed(Pushed(b, feed[0]), feed[1..]);
    }
  }

  // ---------- What a view shows of any feed ----------

  function Highest(feed: seq<LogEvent>): nat {
    if feed == [] then 0
    else
      var before, last := Highest(feed[..|feed| - 1]), feed[|feed| - 1].number;
      if last > before then last else before
  }

  /** The events numbered above everything that arrived before them. */
  function Records(feed: seq<LogEvent>): seq<LogEvent> {
    if feed == [] then []
    else
      var before, last := feed[..|feed| - 1], feed[|feed| - 1];
      Records(before) + if last.number > Highest(before) then [last] else []
  }

  /** In whatever order stamped events arrive, the view shows the newest of those that outnumbered all
      before them. */
  lemma {:induction false} ViewIsRecords(capacity: nat, feed: seq<LogEvent>)
    requires capacity >= 1 && Stamped(feed)
    ensures Fed(Empty(capacity), feed) == Buffer(capacity, Highest(feed), Last(Records(feed), capacity))
    decreases |feed|
  {
    hide Last, Pushed;
    if feed == [] {
      assert Last([], capacity) == [] by { LastIsShort([], capacity); LastKeepsShort([], capacity); }
    } else {
      var before, event := feed[..|feed| - 1], feed[|feed| - 1];
      var b, records := Fed(Empty(capacity), before), Records(before);
      ViewIsRecords(capacity, before);
      FedOneMore(Empty(capacity), before, event);
      assert feed == before + [event] && event.number > 0;
      if event.number > Highest(before) {
        LastIsShort(records, capacity);
        NewerIsAppended(b, event);
        LastTwice(records, [event], capacity);
      } else {
        SeenIsDropped(b, event);
        assert records + [] == records;
      }
    }
  }

  lemma LastKeepsShort(s: seq<LogEvent>, n: nat)
    requires |s| <= n
    ensures Last(s, n) == s
  {
  }

  lemma SeenIsDropped(b: Buffer, event: LogEvent)
    requires 0 < event.number <= b.lastNumber
    ensures Pushed(b, event) == b
  {
  }

  lemma FedOneMore(b: Buffer, feed: seq<LogEvent>, event: LogEvent)
    ensures Fed(b, feed + [event]) == Pushed(Fed(b, feed), event)
  {
    hide Pushed;
    FedConcat(b, feed, [event]);
    assert [event][1..] == [];
    assert Fed(Pushed(Fed(b, feed), event), []) == Pushed(Fed(b, feed), event);
  }

  ghost predicate Outnumbers(feed: seq<LogEvent>, i: nat)
    requires i < |feed|
  {
    forall j | 0 <= j < i :: feed[j].number < feed[i].number
  }

  ghost predicate Repeats(feed: seq<LogEvent>, i: nat)
    requires i < |feed|
  {
    exists j | 0 <= j < i :: feed[j] == feed[i]
  }

  /** Each event is a repeat of an earlier one or is numbered above all earlier ones. */
  ghost predicate InOrder(feed: seq<LogEvent>) {
    forall i | 0 <= i < |feed| :: Repeats(feed, i) || Outnumbers(feed, i)
  }

  lemma {:induction false} HighestIsAbove(feed: seq<LogEvent>, n: nat)
    requires n > 0
    ensures n > Highest(feed) <==> forall j | 0 <= j < |feed| :: feed[j].number < n
  {
    if feed != [] {
      HighestIsAbove(feed[..|feed| - 1], n);
    }
  }

  lemma {:induction false} RecordedIff(feed: seq<LogEvent>, event: LogEvent)
    requires Stamped(feed)
    ensures event in Records(feed) <==> exists i | 0 <= i < |feed| :: feed[i] == event && Outnumbers(feed, i)
  {
    if feed != [] {
      var before, last := feed[..|feed| - 1], feed[|feed| - 1];
      RecordedIff(before, event);
      HighestIsAbove(before, last.number);
      assert forall i | 0 <= i < |before| :: Outnumbers(before, i) <==> Outnumbers(feed, i);
      assert Outnumbers(feed, |feed| - 1) <==> last.number > Highest(before);
      if event in Records(before) {
        var i :| 0 <= i < |before| && before[i] == event && Outnumbers(before, i);
        assert feed[i] == event && Outnumbers(feed, i);
      }
      if i :| 0 <= i < |feed| && feed[i] == event && Outnumbers(feed, i) {
        if i < |before| { assert before[i] == event && Outnumbers(before, i); }
      }
    }
  }

  /** Every event of a feed is recorded if and only if the feed is in order. */
  lemma AllRecordedIff(feed: seq<LogEvent>)
    requires Stamped(feed)
    ensures (forall i | 0 <= i < |feed| :: feed[i] in Records(feed)) <==> InOrder(feed)
  {
    if InOrder(feed) {
      forall i | 0 <= i < |feed|
        ensures feed[i] in Records(feed)
      {
        InOrderIsRecorded(feed, i);
      }
    }
    if forall i | 0 <= i < |feed| :: feed[i] in Records(feed) {
      forall i | 0 <= i < |feed|
        ensures Repeats(feed, i) || Outnumbers(feed, i)
      {
        RecordedIff(feed, feed[i]);
        var k :| 0 <= k < |feed| && feed[k] == feed[i] && Outnumbers(feed, k);
        assert feed[k].number == feed[i].number && k <= i;
      }
    }
  }

  lemma {:induction false} InOrderIsRecorded(feed: seq<LogEvent>, i: nat)
    requires Stamped(feed) && InOrder(feed) && i < |feed|
    ensures feed[i] in Records(feed)
  {
    RecordedIff(feed, feed[i]);
    if !Outnumbers(feed, i) {
      var j :| 0 <= j < i && feed[j] == feed[i];
      InOrderIsRecorded(feed, j);
    }
  }

  // How many different events there are.

  function Different(feed: seq<LogEvent>): set<LogEvent> {
    set i | 0 <= i < |feed| :: feed[i]
  }

  lemma {:induction false} DifferentIsSmall(feed: seq<LogEvent>)
    ensures |Different(feed)| <= |feed|
  {
    if feed != [] {
      var before := feed[..|feed| - 1];
      DifferentIsSmall(before);
      assert Different(feed) == Different(before) + {feed[|feed| - 1]};
    }
  }

  lemma {:induction false} AscendingFits(events: seq<LogEvent>, all: set<LogEvent>)
    requires Ascending(events) && forall i | 0 <= i < |events| :: events[i] in all
    ensures |events| <= |all|
    decreases |events|
  {
    if events != [] {
      var last := events[|events| - 1];
      AscendingFits(events[..|events| - 1], all - {last});
    }
  }

  lemma {:induction false} RecordsAscend(feed: seq<LogEvent>)
    requires Stamped(feed)
    ensures Ascending(Records(feed)) && forall i | 0 <= i < |Records(feed)| :: Records(feed)[i].number <= Highest(feed)
  {
    if feed != [] {
      RecordsAscend(feed[..|feed| - 1]);
    }
  }

  lemma RecordsComeFromFeed(feed: seq<LogEvent>)
    requires Stamped(feed)
    ensures forall i | 0 <= i < |Records(feed)| :: Records(feed)[i] in Different(feed)
  {
    hide Records;
    forall i | 0 <= i < |Records(feed)|
      ensures Records(feed)[i] in Different(feed)
    {
      RecordedIff(feed, Records(feed)[i]);
    }
  }

  /** A view loses nothing of a feed, however its events repeat, if and only if the feed is in order and
      its different events fit the capacity. */
  lemma NothingIsLostIffInOrder(capacity: nat, feed: seq<LogEvent>)
    requires capacity >= 1 && Stamped(feed)
    ensures (forall i | 0 <= i < |feed| :: feed[i] in Fed(Empty(capacity), feed).events)
            <==> InOrder(feed) && |Different(feed)| <= capacity
  {
    hide Fed, Records, InOrder;
    ViewIsRecords(capacity, feed);
    AllRecordedIff(feed);
    RecordsAscend(feed);
    RecordsComeFromFeed(feed);
    var shown := Last(Records(feed), capacity);
    LastIsShort(Records(feed), capacity);
    if InOrder(feed) && |Different(feed)| <= capacity {
      AscendingFits(Records(feed), Different(feed));
    }
    if forall i | 0 <= i < |feed| :: feed[i] in shown {
      assert Different(feed) <= Different(shown);
      SubsetIsSmall(Different(feed), Different(shown));
      DifferentIsSmall(shown);
    }
  }

  lemma {:induction false} SubsetIsSmall(a: set<LogEvent>, b: set<LogEvent>)
    requires a <= b
    ensures |a| <= |b|
  {
    if a != {} {
      var x :| x in a;
      SubsetIsSmall(a - {x}, b - {x});
    }
  }

  // ---------- Runs of concurrent pushes, each split into its steps ----------

  /** How far a push has got: the number is taken outside the ring's lock, and the broadcast comes after
      it. */
  datatype Progress = Taken | Appended | Sent

  /** The store and one view. `appended` is all that ever entered the ring; the view receives what is sent
      after `from`, and `replay` is the ring as it read it, after `at` events had been appended. */
  datatype System = System(
    events: seq<LogEvent>, progress: seq<Progress>, ring: seq<LogEvent>, appended: seq<LogEvent>,
    sent: seq<LogEvent>, from: Option<nat>, replay: Option<seq<LogEvent>>, at: nat)

  const START: System := System([], [], [], [], [], None, None, 0)

  function TakeNumber(s: System, message: string): System {
    s.(events := s.events + [LogEvent(|s.events| + 1, message)], progress := s.progress + [Taken])
  }

  function AppendToRing(s: System, k: nat, cap: nat): System
    requires k < |s.events| && k < |s.progress|
  {
    s.(progress := s.progress[k := Appended],
       ring := (if |s.ring| == cap && s.ring != [] then s.ring[1..] else s.ring) + [s.events[k]],
       appended := s.appended + [s.events[k]])
  }

  function Send(s: System, k: nat): System
    requires k < |s.events| && k < |s.progress|
  {
    s.(progress := s.progress[k := Sent], sent := s.sent + [s.events[k]])
  }

  ghost predicate PushStep(cap: nat, s: System, s': System) {
    (exists message :: s' == TakeNumber(s, message))
    || exists k: nat ::
         k < |s.events| && k < |s.progress|
         && ((s.progress[k].Taken? && s' == AppendToRing(s, k, cap))
             || (s.progress[k].Appended? && s' == Send(s, k)))
  }

  /** The view subscribes and then, at any later time, replays the ring. */
  ghost predicate ViewStep(s: System, s': System) {
    (s.from.None? && s' == s.(from := Some(|s.sent|)))
    || (s.from.Some? && s.replay.None? && s' == s.(replay := Some(s.ring), at := |s.appended|))
  }

  ghost predicate Next(cap: nat, s: System, s': System) {
    PushStep(cap, s, s') || ViewStep(s, s')
  }

  ghost predicate IsRun(cap: nat, run: seq<System>) {
    run != [] && run[0] == START && forall i | 0 <= i < |run| - 1 :: Next(cap, run[i], run[i + 1])
  }

  /** The event with the number that `event` has. */
  ghost predicate IsIssued(events: seq<LogEvent>, event: LogEvent) {
    1 <= event.number <= |events| && events[event.number - 1] == event
  }

  ghost predicate PushInv(cap: nat, s: System) {
    |s.progress| == |s.events|
    && s.ring == Last(s.appended, cap)
    && (forall k | 0 <= k < |s.events| :: s.events[k].number == k + 1)
    && (forall k | 0 <= k < |s.events| :: s.progress[k].Taken? || s.events[k] in s.appended)
    && (forall i | 0 <= i < |s.appended| :: IsIssued(s.events, s.appended[i]))
    && (forall i | 0 <= i < |s.sent| :: s.sent[i] in s.appended)
  }

  /** All that was sent before the view subscribed had been appended by the time it replayed. */
  ghost predicate ViewInv(cap: nat, s: System) {
    (s.from.Some? ==> s.from.value <= |s.sent|)
    && (s.replay.Some? ==>
          s.from.Some? && s.at <= |s.appended| && s.replay.value == Last(s.appended[..s.at], cap)
          && forall i | 0 <= i < s.from.value :: s.sent[i] in s.appended[..s.at])
  }

  lemma TakeKeeps(cap: nat, s: System, message: string)
    requires PushInv(cap, s) && ViewInv(cap, s)
    ensures PushInv(cap, TakeNumber(s, message)) && ViewInv(cap, TakeNumber(s, message))
  {
    hide Last;
  }

  lemma AppendKeeps(cap: nat, s: System, k: nat)
    requires cap >= 1 && PushInv(cap, s) && ViewInv(cap, s) && k < |s.events|
    ensures PushInv(cap, AppendToRing(s, k, cap)) && ViewInv(cap, AppendToRing(s, k, cap))
  {
    var s', event := AppendToRing(s, k, cap), s.events[k];
    RingStep(s.appended, event, cap);
    hide Last;
    assert s'.appended[|s.appended|] == event;
    assert forall e | e in s.appended :: e in s'.appended;
    if s.replay.Some? {
      assert s'.appended[..s.at] == s.appended[..s.at];
    }
  }

  lemma RingStep(appended: seq<LogEvent>, event: LogEvent, cap: nat)
    requires cap >= 1
    ensures var ring := Last(appended, cap);
            (if |ring| == cap && ring != [] then ring[1..] else ring) + [event] == Last(appended + [event], cap)
  {
  }

  lemma SendKeeps(cap: nat, s: System, k: nat)
    requires PushInv(cap, s) && ViewInv(cap, s) && k < |s.events| && s.progress[k].Appended?
    ensures PushInv(cap, Send(s, k)) && ViewInv(cap, Send(s, k))
  {
    hide Last;
  }

  lemma NextKeeps(cap: nat, s: System, s': System)
    requires cap >= 1 && PushInv(cap, s) && ViewInv(cap, s) && Next(cap, s, s')
    ensures PushInv(cap, s') && ViewInv(cap, s')
  {
    hide TakeNumber, AppendToRing, Send, Last;
    if PushStep(cap, s, s') {
      hide PushInv, ViewInv;
      if message :| s' == TakeNumber(s, message) {
        TakeKeeps(cap, s, message);
      } else {
        var k: nat :| k < |s.events| && k < |s.progress|
          && ((s.progress[k].Taken? && s' == AppendToRing(s, k, cap))
              || (s.progress[k].Appended? && s' == Send(s, k)));
        if s.progress[k].Taken? {
          AppendKeeps(cap, s, k);
        } else {
          SendKeeps(cap, s, k);
        }
      }
    } else {
      assert s.appended[..|s.appended|] == s.appended;
    }
  }

  lemma {:induction false} EveryStateIsGood(cap: nat, run: seq<System>, i: nat)
    requires cap >= 1 && IsRun(cap, run) && i < |run|
    ensures PushInv(cap, run[i]) && ViewInv(cap, run[i])
  {
    hide PushInv, ViewInv, Next;
    if i == 0 {
      StartKeeps(cap);
    } else {
      EveryStateIsGood(cap, run, i - 1);
      assert Next(cap, run[i - 1], run[(i - 1) + 1]);
      NextKeeps(cap, run[i - 1], run[i]);
    }
  }

  lemma StartKeeps(cap: nat)
    ensures PushInv(cap, START) && ViewInv(cap, START)
  {
  }

  /** What a view that has replayed the ring is fed: the replay, then what is sent to it. */
  function Feed(s: System): seq<LogEvent>
    requires s.replay.Some? && s.from.Some? && s.from.value <= |s.sent|
  {
    s.replay.value + s.sent[s.from.value..]
  }

  lemma FeedIsIssued(cap: nat, s: System)
    requires cap >= 1 && PushInv(cap, s) && ViewInv(cap, s) && s.replay.Some?
    ensures Stamped(Feed(s)) && forall i | 0 <= i < |Feed(s)| :: IsIssued(s.events, Feed(s)[i])
  {
    var feed := Feed(s);
    forall i | 0 <= i < |feed|
      ensures IsIssued(s.events, feed[i])
    {
      assert feed[i] in s.appended;
    }
  }

  /** In every run of split pushes, with a subscription and then a replay anywhere in it: whatever has been
      sent is on its way to the view or had been appended before the replay, so nothing falls between
      the two; the view never repeats an event; and it loses nothing of its feed if and only if the
      feed is in order and fits. */
  lemma SplitPushesAreShown(cap: nat, run: seq<System>, i: nat, capacity: nat)
    requires cap >= 1 && capacity >= 1 && IsRun(cap, run) && i < |run| && run[i].replay.Some?
    ensures var s := run[i];
            s.from.Some? && s.from.value <= |s.sent| && s.at <= |s.appended|
            && (forall k | 0 <= k < |s.sent| :: s.sent[k] in s.sent[s.from.value..] || s.sent[k] in s.appended[..s.at])
            && s.replay.value == Last(s.appended[..s.at], cap)
    ensures var feed := Feed(run[i]);
            var shown := Fed(Empty(capacity), feed).events;
            Ascending(shown)
            && ((forall k | 0 <= k < |feed| :: feed[k] in shown) <==> InOrder(feed) && |Different(feed)| <= capacity)
  {
    var s := run[i];
    EveryStateIsGood(cap, run, i);
    FeedIsIssued(cap, s);
    forall k | 0 <= k < |s.sent|
      ensures s.sent[k] in s.sent[s.from.value..] || s.sent[k] in s.appended[..s.at]
    {
      if k >= s.from.value {
        assert s.sent[s.from.value..][k - s.from.value] == s.sent[k];
      }
    }
    hide PushInv, Last, Fed, InOrder, Feed;
    NothingIsLostIffInOrder(capacity, Feed(s));
    ViewAlwaysAscends(Empty(capacity), Feed(s));
  }

  lemma RunGrows(cap: nat, run: seq<System>, s: System)
    requires IsRun(cap, run) && Next(cap, run[|run| - 1], s)
    ensures IsRun(cap, run + [s])
  {
    hide Next;
  }

  /** Two pushers, the second overtaking the first between taking its number and reaching the ring. */
  lemma Overtaking(first: string, second: string) returns (run: seq<System>)
    ensures IsRun(2, run) && |run| == 7
    ensures var a, b := LogEvent(1, first), LogEvent(2, second);
            run[6] == System([a, b], [Sent, Sent], [b, a], [b, a], [b, a], None, None, 0)
  {
    var a, b := LogEvent(1, first), LogEvent(2, second);
    assert IsRun(2, [START]);
    hide IsRun, Next;
    run := [START];
    run := AfterPush(run, TakeNumber(START, first), 0);
    run := AfterPush(run, TakeNumber(run[1], second), 0);
    assert run[2] == System([a, b], [Taken, Taken], [], [], [], None, None, 0);
    run := AfterPush(run, AppendToRing(run[2], 1, 2), 1);
    run := AfterPush(run, Send(run[3], 1), 1);
    assert run[4] == System([a, b], [Taken, Sent], [b], [b], [b], None, None, 0);
    run := AfterPush(run, AppendToRing(run[4], 0, 2), 0);
    run := AfterPush(run, Send(run[5], 0), 0);
  }

  lemma AfterPush(run: seq<System>, s: System, k: nat) returns (longer: seq<System>)
    requires IsRun(2, run)
    requires var last := run[|run| - 1];
             (exists message :: s == TakeNumber(last, message))
             || (k < |last.events| && k < |last.progress|
                 && ((last.progress[k].Taken? && s == AppendToRing(last, k, 2))
                     || (last.progress[k].Appended? && s == Send(last, k))))
    ensures IsRun(2, longer) && longer == run + [s]
  {
    longer := run + [s];
    assert PushStep(2, run[|run| - 1], s);
    RunGrows(2, run, s);
  }

  lemma AfterView(run: seq<System>, s: System) returns (longer: seq<System>)
    requires IsRun(2, run) && ViewStep(run[|run| - 1], s)
    ensures IsRun(2, longer) && longer == run + [s]
  {
    longer := run + [s];
    RunGrows(2, run, s);
  }

  /** Both events are then in the ring of two that a new view replays, which shows one of them. */
  lemma OvertakenEventIsLost(first: string, second: string) returns (run: seq<System>)
    ensures IsRun(2, run) && run[|run| - 1].replay == Some([LogEvent(2, second), LogEvent(1, first)])
    ensures Fed(Empty(2), run[|run| - 1].replay.value).events == [LogEvent(2, second)]
  {
    var a, b := LogEvent(1, first), LogEvent(2, second);
    hide IsRun;
    run := Overtaking(first, second);
    run := AfterView(run, run[6].(from := Some(2)));
    run := AfterView(run, run[7].(replay := Some([b, a]), at := 2));
    var feed, shown := [b, a], Pushed(Empty(2), b);
    assert shown == Buffer(2, 2, [b]);
    assert feed[1..] == [a] && [a][1..] == [] && Pushed(shown, a) == shown;
    assert Fed(shown, [a]) == Fed(shown, []);
  }
}

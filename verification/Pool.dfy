/** Prewarmed, never-used sockets to one upstream: what taking, refreshing and parking do to the
    idle list while the clock runs and peers close or talk out of turn. */
module Pool {
  import opened Results

  /** A parked socket: its identity and when it was parked, in milliseconds. */
  datatype Idle = Idle(socket: nat, since: nat)

  /** The world around the pool: the time, and the sockets whose peer has closed or written. Time
      only advances, and a socket that is no longer open and silent never becomes so again. */
  datatype World = World(now: nat, unusable: set<nat>)
  {
    ghost predicate Before(later: World) {
      now <= later.now && unusable <= later.unusable
    }
  }

  predicate InTime(e: Idle, now: nat, timeout: nat) {
    now < e.since + timeout
  }

  predicate Usable(e: Idle, w: World, timeout: nat) {
    InTime(e, w.now, timeout) && e.socket !in w.unusable
  }

  datatype Refresh = Full(nextExpiry: nat) | Short(closedByPeer: nat)

  // ---------- What each operation does to the idle list ----------

  /** Taking pops from the newest end: it hands out the newest socket that is usable at the end of the
      call and leaves every older one parked; all the newer ones are unusable by then. It hands
      out nothing only if no parked socket is usable. */
  ghost predicate Took(before: seq<Idle>, after: seq<Idle>, r: Option<nat>, w: World, timeout: nat) {
    match r
    case None => after == [] && forall j | 0 <= j < |before| :: !Usable(before[j], w, timeout)
    case Some(socket) =>
      |after| < |before| && after == before[..|after|]
      && before[|after|].socket == socket && Usable(before[|after|], w, timeout)
      && forall j | |after| < j < |before| :: !Usable(before[j], w, timeout)
  }

  ghost predicate Increasing(at: seq<nat>, bound: nat) {
    (forall i | 0 <= i < |at| :: at[i] < bound)
    && forall i, j | 0 <= i < j < |at| :: at[i] < at[j]
  }

  /** `after` is what `before` keeps at the positions `at`, in order. */
  ghost predicate Keeps(before: seq<Idle>, after: seq<Idle>, at: seq<nat>) {
    |at| == |after| && Increasing(at, |before|) && forall i | 0 <= i < |at| :: after[i] == before[at[i]]
  }

  ghost predicate Subsequence(before: seq<Idle>, after: seq<Idle>) {
    exists at :: Keeps(before, after, at)
  }

  lemma KeepsTwice(a: seq<Idle>, b: seq<Idle>, c: seq<Idle>)
    requires Subsequence(a, b) && Subsequence(b, c)
    ensures Subsequence(a, c)
  {
    var f :| Keeps(a, b, f);
    var g :| Keeps(b, c, g);
    var h := seq(|g|, i requires 0 <= i < |g| => f[g[i]]);
    assert Keeps(a, c, h);
  }

  lemma KeepsMore(before: seq<Idle>, after: seq<Idle>, at: seq<nat>, i: nat)
    requires i < |before| && Keeps(before[..i], after, at)
    ensures Keeps(before[..i + 1], after, at)
    ensures Keeps(before[..i + 1], after + [before[i]], at + [i])
  {
  }

  /** The oldest parking time. */
  function Oldest(idle: seq<Idle>): (t: nat)
    requires idle != []
    ensures forall i | 0 <= i < |idle| :: t <= idle[i].since
    ensures exists i | 0 <= i < |idle| :: t == idle[i].since
  {
    if |idle| == 1 then idle[0].since
    else
      var rest := Oldest(idle[1..]);
      if idle[0].since < rest then idle[0].since else rest
  }

  function SaturatingSub(a: nat, b: nat): nat {
    if a < b then 0 else a - b
  }

  /** `closedByPeer` counts exactly the sockets removed for their peer's doing, those still in time when the
      expired ones were removed. */
  ghost predicate CountsHostile(before: seq<Idle>, after: seq<Idle>, closedByPeer: nat, later: World, timeout: nat) {
    exists inTime: seq<Idle> ::
      Subsequence(before, inTime) && Subsequence(inTime, after)
      && (forall i | 0 <= i < |before| :: before[i] !in inTime ==> !InTime(before[i], later.now, timeout))
      && (forall i | 0 <= i < |inTime| :: inTime[i] !in after ==> inTime[i].socket in later.unusable)
      && closedByPeer == |inTime| - |after|
  }

  /** Refreshing removes sockets that have become unusable and keeps, in place, those that were usable
      when it began. It asks for a dial exactly below the watermark, and then says how many sockets
      were lost to their peers. */
  ghost predicate Refreshed(before: seq<Idle>, after: seq<Idle>, r: Refresh, w: World, later: World,
                            minIdle: nat, timeout: nat)
  {
    Subsequence(before, after)
    && (forall i | 0 <= i < |before| :: before[i] !in after ==> !Usable(before[i], later, timeout))
    && (forall i | 0 <= i < |after| :: Usable(after[i], w, timeout))
    && (r.Short? <==> |after| < minIdle)
    && (r.Short? ==> CountsHostile(before, after, r.closedByPeer, later, timeout))
    && (r.Full? ==> r.nextExpiry <= timeout
                    && (after == [] ==> r.nextExpiry == timeout)
                    && (after != [] ==> r.nextExpiry == SaturatingSub(Oldest(after) + timeout, later.now)))
  }

  // ---------- The pool ----------

  class Network {
    var now: nat
    var unusable: set<nat>

    constructor ()
      ensures State() == World(0, {})
    {
      now, unusable := 0, {};
    }

    ghost function State(): World
      reads this
    {
      World(now, unusable)
    }

    /** Anything may happen meanwhile. */
    method Drift()
      modifies this
      ensures old(State()).Before(State())
    {
      var elapsed: nat :| elapsed >= 0;
      var gone: set<nat> := *;
      now := now + elapsed;
      unusable := unusable + gone;
    }
  }

  class UpstreamPool {
    const minIdle: nat
    const idleTimeout: nat
    const network: Network
    var idle: seq<Idle>
    var prewarming: bool
    var woken: bool

    constructor (minIdle: nat, idleTimeout: nat, network: Network)
      ensures this.minIdle == minIdle && this.idleTimeout == idleTimeout && this.network == network
      ensures idle == [] && !prewarming && !woken
    {
      this.minIdle, this.idleTimeout, this.network := minIdle, idleTimeout, network;
      idle, prewarming, woken := [], false, false;
    }

    /** The parked sockets were parked in the past, oldest first. */
    ghost predicate Valid()
      reads this, network
    {
      Parked(idle, network.State())
    }

    method Take(runtime: bool) returns (r: Option<nat>)
      requires Valid()
      modifies this, network
      ensures Valid() && old(network.State()).Before(network.State())
      ensures Took(old(idle), idle, r, network.State(), idleTimeout)
      ensures woken && (prewarming <==> old(prewarming) || runtime)
    {
      if !prewarming && runtime {
        prewarming := true;
      }
      r := TakeIdle();
      woken := true;
    }

    method TakeIdle() returns (r: Option<nat>)
      requires Valid()
      modifies this`idle, network
      ensures Valid() && old(network.State()).Before(network.State())
      ensures Took(old(idle), idle, r, network.State(), idleTimeout)
    {
      ghost var before := idle;
      while idle != []
        invariant |idle| <= |before| && idle == before[..|idle|]
        invariant old(network.State()).Before(network.State())
        invariant forall j | |idle| <= j < |before| :: !Usable(before[j], network.State(), idleTimeout)
      {
        var entry := idle[|idle| - 1];
        idle := idle[..|idle| - 1];
        network.Drift();
        if network.now - entry.since < idleTimeout && entry.socket !in network.unusable {
          return Some(entry.socket);
        }
      }
      return None;
    }

    /** Keeps the entries that are in time when each is looked at, or, for `peers`, those still open and
        silent. */
    method Retain(peers: bool)
      requires Valid()
      modifies this`idle, network
      ensures Valid() && old(network.State()).Before(network.State())
      ensures Subsequence(old(idle), idle)
      ensures forall i | 0 <= i < |old(idle)| :: old(idle)[i] !in idle ==>
                if peers then old(idle)[i].socket in network.unusable
                else !InTime(old(idle)[i], network.now, idleTimeout)
      ensures forall i | 0 <= i < |idle| ::
                if peers then idle[i].socket !in old(network.unusable)
                else InTime(idle[i], old(network.now), idleTimeout)
    {
      var before, kept := idle, [];
      ghost var at: seq<nat> := [];
      for i := 0 to |before|
        invariant idle == before
        invariant old(network.State()).Before(network.State())
        invariant Keeps(before[..i], kept, at)
        invariant forall j | 0 <= j < i :: before[j] !in kept ==>
                    if peers then before[j].socket in network.unusable
                    else !InTime(before[j], network.now, idleTimeout)
        invariant forall j | 0 <= j < |kept| ::
                    if peers then kept[j].socket !in old(network.unusable)
                    else InTime(kept[j], old(network.now), idleTimeout)
      {
        network.Drift();
        KeepsMore(before, kept, at, i);
        var entry := before[i];
        if if peers then entry.socket !in network.unusable else network.now - entry.since < idleTimeout {
          kept, at := kept + [entry], at + [i];
        }
      }
      assert before[..|before|] == before;
      KeptStaysParked(before, kept, network.State());
      idle := kept;
    }

    method Refresh() returns (r: Refresh)
      requires Valid()
      modifies this`idle, network
      ensures Valid() && old(network.State()).Before(network.State())
      ensures Refreshed(old(idle), idle, r, old(network.State()), network.State(), minIdle, idleTimeout)
    {
      hide Keeps, Increasing;
      var before := idle;
      Retain(false);
      ghost var inTime := idle;
      var expired := |before| - |idle|;
      Retain(true);
      var closedByPeer := |before| - expired - |idle|;
      KeepsTwice(before, inTime, idle);
      KeptIsShorter(before, inTime);
      KeptIsShorter(inTime, idle);
      if |idle| < minIdle {
        assert CountsHostile(before, idle, closedByPeer, network.State(), idleTimeout);
        return Short(closedByPeer);
      }
      if idle == [] {
        return Full(idleTimeout);
      }
      var oldest := Oldest(idle);
      return Full(SaturatingSub(idleTimeout, network.now - oldest));
    }

    /** Parks a freshly dialed socket, unless the pool is at its watermark. */
    method Put(socket: nat) returns (parked: bool)
      requires Valid() && forall i | 0 <= i < |idle| :: idle[i].socket != socket
      modifies this`idle
      ensures Valid() && (parked <==> |old(idle)| < minIdle)
      ensures idle == old(idle) + if parked then [Idle(socket, network.now)] else []
    {
      parked := |idle| < minIdle;
      if parked {
        idle := idle + [Idle(socket, network.now)];
      }
    }
  }

  // ---------- The registry ----------

  const MAX_UPSTREAMS: nat := 8

  /** One pool per upstream address, at most eight of them. */
  class UpstreamPools {
    const minIdle: nat
    const idleTimeout: nat
    const network: Network
    var pools: map<string, UpstreamPool>

    constructor (minIdle: nat, idleTimeout: nat, network: Network)
      ensures Valid() && pools == map[]
    {
      this.minIdle, this.idleTimeout, this.network, pools := minIdle, idleTimeout, network, map[];
    }

    /** No pool is shared between two addresses. */
    ghost predicate Valid()
      reads this
    {
      |pools| <= MAX_UPSTREAMS
      && forall a, b | a in pools && b in pools && a != b :: pools[a] != pools[b]
    }

    method Get(addr: string) returns (r: UpstreamPool?)
      requires Valid()
      modifies this`pools
      ensures Valid()
      ensures addr in old(pools) ==> r == old(pools)[addr]
      ensures addr !in old(pools) ==> (r == null <==> |old(pools)| >= 8) && (r != null ==> fresh(r))
      ensures addr !in old(pools) && r != null ==>
                r.minIdle == minIdle && r.idleTimeout == idleTimeout && r.network == network
                && r.idle == [] && !r.prewarming
      ensures pools == if r == null then old(pools) else old(pools)[addr := r]
    {
      if addr in pools {
        r := pools[addr];
        assert pools[addr := r] == pools;
        return;
      }
      if |pools| >= MAX_UPSTREAMS {
        return null;
      }
      r := new UpstreamPool(minIdle, idleTimeout, network);
      pools := pools[addr := r];
    }
  }

  /** Each socket once, in parking order, and none parked in the future. */
  ghost predicate Parked(idle: seq<Idle>, w: World) {
    (forall i, j | 0 <= i < j < |idle| :: idle[i].since <= idle[j].since && idle[i].socket != idle[j].socket)
    && forall i | 0 <= i < |idle| :: idle[i].since <= w.now
  }

  lemma KeptStaysParked(before: seq<Idle>, after: seq<Idle>, w: World)
    requires Subsequence(before, after) && Parked(before, w)
    ensures Parked(after, w)
  {
    var at :| Keeps(before, after, at);
  }

  lemma KeptIsShorter(before: seq<Idle>, after: seq<Idle>)
    requires Subsequence(before, after)
    ensures |after| <= |before|
    ensures forall i | 0 <= i < |after| :: after[i] in before
  {
    var at :| Keeps(before, after, at);
    AtLeast(at, |before|, |at|);
  }

  lemma {:induction false} AtLeast(at: seq<nat>, bound: nat, n: nat)
    requires Increasing(at, bound) && n <= |at|
    ensures n > 0 ==> at[n - 1] >= n - 1
    ensures n <= bound
  {
    if n > 0 {
      AtLeast(at, bound, n - 1);
    }
  }

  /** A report means that some removed socket was closed or written to by its peer; no report means that
      everything removed had expired. */
  lemma ReportMeans(before: seq<Idle>, after: seq<Idle>, closedByPeer: nat, w: World, later: World, timeout: nat)
    requires Parked(before, w) && CountsHostile(before, after, closedByPeer, later, timeout)
    ensures closedByPeer == 0 ==>
              forall i | 0 <= i < |before| :: before[i] !in after ==> !InTime(before[i], later.now, timeout)
    ensures closedByPeer > 0 ==>
              exists i | 0 <= i < |before| :: before[i] !in after && before[i].socket in later.unusable
  {
    var inTime: seq<Idle> :| Subsequence(before, inTime) && Subsequence(inTime, after)
      && (forall i | 0 <= i < |before| :: before[i] !in inTime ==> !InTime(before[i], later.now, timeout))
      && (forall i | 0 <= i < |inTime| :: inTime[i] !in after ==> inTime[i].socket in later.unusable)
      && closedByPeer == |inTime| - |after|;
    if closedByPeer == 0 {
      AllIsKept(inTime, after);
    } else {
      KeptStaysParked(before, inTime, w);
      KeptIsShorter(before, inTime);
      var j := SomethingRemoved(inTime, after, w);
      var i :| 0 <= i < |before| && before[i] == inTime[j];
    }
  }

  lemma AllIsKept(before: seq<Idle>, after: seq<Idle>)
    requires Subsequence(before, after) && |after| == |before|
    ensures after == before
  {
    var at :| Keeps(before, after, at);
    forall i | 0 <= i < |at|
      ensures at[i] == i
    {
      AtLeast(at, |before|, i + 1);
      AtMost(at, |before|, i);
    }
  }

  lemma {:induction false} AtMost(at: seq<nat>, bound: nat, i: nat)
    requires Increasing(at, bound) && i < |at|
    ensures at[i] + (|at| - i) <= bound
    decreases |at| - i
  {
    if i + 1 < |at| {
      AtMost(at, bound, i + 1);
    }
  }

  lemma SomethingRemoved(before: seq<Idle>, after: seq<Idle>, w: World) returns (gap: nat)
    requires Parked(before, w) && Subsequence(before, after) && |after| < |before|
    ensures gap < |before| && before[gap] !in after
  {
    var at :| Keeps(before, after, at);
    gap := Gap(at, |before|, 0);
  }

  lemma {:induction false} Gap(at: seq<nat>, bound: nat, n: nat) returns (gap: nat)
    requires Increasing(at, bound) && n <= |at| < bound
    requires forall j | 0 <= j < n :: at[j] == j
    ensures gap < bound && gap !in at
    decreases |at| - n
  {
    gap := n;
    if n < |at| && at[n] == n {
      gap := Gap(at, bound, n + 1);
    } else if n < |at| {
      AtLeast(at, bound, n + 1);
    }
  }
}

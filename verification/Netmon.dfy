/** The corporate-network gate: matching DNS suffixes by labels, and the live routing it owns. */
module Netmon {
  import opened Results
  import opened Text
  import opened Config

  // ---------- Suffixes ----------

  function TrimDotsStart(s: string): string {
    if s != "" && s[0] == '.' then TrimDotsStart(s[1..]) else s
  }

  function TrimDotsEnd(s: string): string {
    if s != "" && s[|s| - 1] == '.' then TrimDotsEnd(s[..|s| - 1]) else s
  }

  function Normalize(s: string): Option<string> {
    var t := ToLower(TrimDotsEnd(TrimDotsStart(Trim(s))));
    if t == "" then None else Some(t)
  }

  predicate SuffixMatches(a: string, c: string) {
    a == c || EndsWith(a, "." + c)
  }

  function Normalized(items: seq<string>): seq<string> {
    if items == [] then []
    else (match Normalize(items[0]) case Some(t) => [t] case None => []) + Normalized(items[1..])
  }

  predicate OnCorp(active: seq<string>, configured: seq<string>) {
    var wanted := Normalized(configured);
    wanted != [] && exists a, c | a in Normalized(active) && c in wanted :: SuffixMatches(a, c)
  }

  predicate AreDots(s: string) {
    forall i | 0 <= i < |s| :: s[i] == '.'
  }

  lemma {:induction false} DotsStartDropped(dots: string, s: string)
    requires AreDots(dots) && (s != "" ==> s[0] != '.')
    ensures TrimDotsStart(dots + s) == s
  {
    if dots == "" {
      assert dots + s == s;
    } else {
      assert (dots + s)[1..] == dots[1..] + s;
      DotsStartDropped(dots[1..], s);
    }
  }

  lemma {:induction false} DotsEndDropped(s: string, dots: string)
    requires AreDots(dots) && (s != "" ==> s[|s| - 1] != '.')
    ensures TrimDotsEnd(s + dots) == s
  {
    if dots == "" {
      assert s + dots == s;
    } else {
      assert (s + dots)[..|s + dots| - 1] == s + dots[..|dots| - 1];
      DotsEndDropped(s, dots[..|dots| - 1]);
    }
  }

  /** A suffix is what is between white space and then dots, in lower case; nothing is no suffix. */
  lemma NormalizeMeans(before: string, dots: string, name: string, dots': string, after: string)
    requires AllSpace(before) && AllSpace(after) && AreDots(dots) && AreDots(dots')
    requires name != "" ==> name[0] != '.' && name[|name| - 1] != '.'
    requires Trimmed(dots + name + dots')
    ensures Normalize(before + (dots + name + dots') + after) == if name == "" then None else Some(ToLower(name))
  {
    hide TrimDotsStart, TrimDotsEnd, ToLower, Trim;
    TrimPadded(before, dots + name + dots', after);
    DotsDropped(dots, name, dots');
    LowerEach(name);
  }

  lemma DotsDropped(dots: string, name: string, dots': string)
    requires AreDots(dots) && AreDots(dots')
    requires name != "" ==> name[0] != '.' && name[|name| - 1] != '.'
    ensures TrimDotsEnd(TrimDotsStart(dots + name + dots')) == name
  {
    hide TrimDotsStart, TrimDotsEnd;
    if name == "" {
      assert dots + name + dots' == (dots + dots') + "";
      DotsStartDropped(dots + dots', "");
      DotsEndDropped("", "");
      assert "" + "" == "";
    } else {
      assert dots + name + dots' == dots + (name + dots');
      DotsStartDropped(dots, name + dots');
      DotsEndDropped(name, dots');
    }
  }

  // ---------- Labels ----------

  function Labels(s: string): seq<string> {
    Split(s, '.')
  }

  ghost predicate IsSuffix<T>(tail: seq<T>, s: seq<T>) {
    |tail| <= |s| && s[|s| - |tail|..] == tail
  }

  function Join(labels: seq<string>): string
    requires labels != []
  {
    if |labels| == 1 then labels[0] else labels[0] + "." + Join(labels[1..])
  }

  lemma {:induction false} SplitConcat(a: string, b: string)
    ensures Labels(a + "." + b) == Labels(a) + Labels(b)
  {
    var s := a + "." + b;
    if a == "" {
      assert s == "." + b && s[1..] == b;
    } else {
      assert s[0] == a[0] && s[1..] == a[1..] + "." + b;
      SplitConcat(a[1..], b);
      var rest := Labels(a[1..]);
      if a[0] != '.' {
        assert (rest + Labels(b))[0] == rest[0];
        assert (rest + Labels(b))[1..] == rest[1..] + Labels(b);
      }
    }
  }

  lemma {:induction false} JoinSplit(s: string)
    ensures Join(Labels(s)) == s
  {
    if s != "" {
      JoinSplit(s[1..]);
      var rest := Labels(s[1..]);
      assert s == [s[0]] + s[1..];
      if s[0] == '.' {
        assert ([""] + rest)[1..] == rest;
      } else if |rest| > 1 {
        var longer := [[s[0]] + rest[0]] + rest[1..];
        assert longer[1..] == rest[1..];
        assert Join(longer) == [s[0]] + rest[0] + "." + Join(rest[1..]);
      }
    }
  }

  lemma {:induction false} JoinConcat(p: seq<string>, q: seq<string>)
    requires p != [] && q != []
    ensures Join(p + q) == Join(p) + "." + Join(q)
  {
    assert (p + q)[1..] == p[1..] + q;
    if |p| > 1 {
      JoinConcat(p[1..], q);
    } else {
      assert p[1..] == [] && [] + q == q;
    }
  }

  /** A suffix matches exactly when its dot-separated labels are the last labels of the other. */
  lemma MatchesByLabels(a: string, c: string)
    ensures SuffixMatches(a, c) <==> IsSuffix(Labels(c), Labels(a))
  {
    var la, lc := Labels(a), Labels(c);
    hide Split, Join;
    if EndsWith(a, "." + c) {
      var front := a[..|a| - |c| - 1];
      assert a == front + "." + c;
      SplitConcat(front, c);
      assert (Labels(front) + lc)[|Labels(front)|..] == lc;
    }
    if IsSuffix(lc, la) {
      var front := la[..|la| - |lc|];
      assert la == front + lc;
      JoinSplit(a);
      JoinSplit(c);
      if front != [] {
        JoinConcat(front, lc);
        assert a == Join(front) + ("." + c);
      } else {
        assert la == lc;
      }
    }
  }

  /** So matching is a partial order, and the suffixes that match one name form a chain. */
  lemma MatchingIsAChainOrder(a: string, b: string, c: string)
    ensures SuffixMatches(a, a)
    ensures SuffixMatches(a, b) && SuffixMatches(b, a) ==> a == b
    ensures SuffixMatches(a, b) && SuffixMatches(b, c) ==> SuffixMatches(a, c)
    ensures SuffixMatches(a, b) && SuffixMatches(a, c) ==> SuffixMatches(b, c) || SuffixMatches(c, b)
  {
    MatchesByLabels(a, b);
    MatchesByLabels(b, a);
    MatchesByLabels(b, c);
    MatchesByLabels(c, b);
    MatchesByLabels(a, c);
    SuffixesChain(Labels(a), Labels(b), Labels(c));
  }

  lemma SuffixesChain(a: seq<string>, b: seq<string>, c: seq<string>)
    ensures IsSuffix(b, a) && IsSuffix(c, b) ==> IsSuffix(c, a)
    ensures IsSuffix(b, a) && IsSuffix(c, a) ==> IsSuffix(b, c) || IsSuffix(c, b)
  {
    if IsSuffix(b, a) && IsSuffix(c, b) {
      assert a[|a| - |c|..] == b[|b| - |c|..];
    }
    if IsSuffix(b, a) && IsSuffix(c, a) {
      if |c| <= |b| {
        assert b[|b| - |c|..] == a[|a| - |c|..];
      } else {
        assert c[|c| - |b|..] == a[|a| - |b|..];
      }
    }
  }

  lemma {:induction false} NormalizedHolds(items: seq<string>, t: string)
    ensures t in Normalized(items) <==> exists i | 0 <= i < |items| :: Normalize(items[i]) == Some(t)
  {
    if items != [] {
      NormalizedHolds(items[1..], t);
      assert items == [items[0]] + items[1..];
      if i :| 0 <= i < |items[1..]| && Normalize(items[1..][i]) == Some(t) {
        assert items[i + 1] == items[1..][i];
      }
      if i :| 0 < i < |items| && Normalize(items[i]) == Some(t) {
        assert items[1..][i - 1] == items[i];
      }
    }
  }

  /** One adapter suffix lies, label by label, at or below one configured suffix. */
  ghost predicate LiesBelow(active: string, configured: string) {
    Normalize(active).Some? && Normalize(configured).Some?
    && IsSuffix(Labels(Normalize(configured).value), Labels(Normalize(active).value))
  }

  /** The machine is on the corporate network exactly when some adapter's suffix lies at or below some
      configured one; entries that are blank once normalised count for nothing. */
  lemma OnCorpByLabels(active: seq<string>, configured: seq<string>)
    ensures OnCorp(active, configured) <==>
            exists i, j | 0 <= i < |active| && 0 <= j < |configured| :: LiesBelow(active[i], configured[j])
  {
    hide Normalize, SuffixMatches, Labels;
    if OnCorp(active, configured) {
      var a, c :| a in Normalized(active) && c in Normalized(configured) && SuffixMatches(a, c);
      NormalizedHolds(active, a);
      NormalizedHolds(configured, c);
      MatchesByLabels(a, c);
      var i :| 0 <= i < |active| && Normalize(active[i]) == Some(a);
      var j :| 0 <= j < |configured| && Normalize(configured[j]) == Some(c);
      assert LiesBelow(active[i], configured[j]);
    }
    if i, j :| 0 <= i < |active| && 0 <= j < |configured| && LiesBelow(active[i], configured[j]) {
      var a, c := Normalize(active[i]).value, Normalize(configured[j]).value;
      NormalizedHolds(active, a);
      NormalizedHolds(configured, c);
      MatchesByLabels(a, c);
    }
  }

  // ---------- The gate ----------

  datatype Routing = Direct | Upstream(addr: string) | Pac(script: string)

  /** Rebuilding the routing of a configuration; failures have been mapped to some routing. */
  type Rebuild = Config -> Routing

  const DEFAULT_POLL: nat := 30

  /** Whether the gate is on, its suffixes, and its poll interval in seconds. */
  function GateParams(config: Config): (bool, seq<string>, nat) {
    match config.routing.corpNetwork
    case Some(corp) =>
      if corp.enabled then (true, corp.dnsSuffixes, if corp.pollSeconds < 1 then 1 else corp.pollSeconds)
      else (false, [], DEFAULT_POLL)
    case None => (false, [], DEFAULT_POLL)
  }

  /** The gate's fields, the live routing, how often it was swapped, and what was reported. */
  datatype GateState = GateState(
    enabled: bool, suffixes: seq<string>, poll: nat, config: Config, last: Option<bool>,
    live: Routing, swaps: nat, reports: seq<Option<bool>>)

  function NewGate(config: Config, live: Routing): GateState {
    var (enabled, suffixes, poll) := GateParams(config);
    GateState(enabled, suffixes, poll, config, None, live, 0, [])
  }

  function Applied(rebuild: Rebuild, g: GateState, corp: bool): GateState {
    g.(live := if corp then rebuild(g.config) else Direct, swaps := g.swaps + 1, reports := g.reports + [Some(corp)])
  }

  function Evaluated(rebuild: Rebuild, g: GateState, active: seq<string>): GateState {
    var corp := OnCorp(active, g.suffixes);
    if !g.enabled || g.last == Some(corp) then g else Applied(rebuild, g, corp).(last := Some(corp))
  }

  function Reconfigured(rebuild: Rebuild, g: GateState, config: Config, active: seq<string>): GateState {
    var (enabled, suffixes, poll) := GateParams(config);
    var adopted := g.(enabled := enabled, suffixes := suffixes, poll := poll, config := config, last := None);
    if enabled then Evaluated(rebuild, adopted, active)
    else adopted.(live := rebuild(config), swaps := g.swaps + 1, reports := g.reports + [None])
  }

  class Gate {
    const rebuild: Rebuild
    var enabled: bool
    var suffixes: seq<string>
    var poll: nat
    var config: Config
    var last: Option<bool>
    var live: Routing
    var swaps: nat
    var reports: seq<Option<bool>>

    constructor (rebuild: Rebuild, config: Config, live: Routing)
      ensures this.rebuild == rebuild && State() == NewGate(config, live)
    {
      var (on, wanted, seconds) := GateParams(config);
      this.rebuild, this.config, this.live := rebuild, config, live;
      enabled, suffixes, poll, last, swaps, reports := on, wanted, seconds, None, 0, [];
    }

    ghost function State(): GateState
      reads this
    {
      GateState(enabled, suffixes, poll, config, last, live, swaps, reports)
    }

    method Evaluate(active: seq<string>)
      modifies this
      ensures State() == Evaluated(rebuild, old(State()), active)
    {
      if !enabled {
        return;
      }
      var corp := OnCorp(active, suffixes);
      if last == Some(corp) {
        return;
      }
      Apply(corp);
      last := Some(corp);
    }

    method Apply(corp: bool)
      modifies this
      ensures State() == Applied(rebuild, old(State()), corp)
    {
      live := if corp then rebuild(config) else Direct;
      swaps := swaps + 1;
      reports := reports + [Some(corp)];
    }

    method Reconfigure(config: Config, active: seq<string>)
      modifies this
      ensures State() == Reconfigured(rebuild, old(State()), config, active)
    {
      var (on, wanted, seconds) := GateParams(config);
      enabled, suffixes, poll := on, wanted, seconds;
      this.config := config;
      last := None;
      if enabled {
        Evaluate(active);
      } else {
        live := rebuild(this.config);
        swaps := swaps + 1;
        reports := reports + [None];
      }
    }
  }

  // ---------- Every sequence of evaluations and reconfigurations ----------

  /** `active` is what the detection finds at that moment. */
  datatype Event = Evaluate(active: seq<string>) | Reconfigure(config: Config, active: seq<string>)

  function After(rebuild: Rebuild, g: GateState, event: Event): GateState {
    match event
    case Evaluate(active) => Evaluated(rebuild, g, active)
    case Reconfigure(config, active) => Reconfigured(rebuild, g, config, active)
  }

  function Run(rebuild: Rebuild, g: GateState, events: seq<Event>): GateState {
    if events == [] then g else After(rebuild, Run(rebuild, g, events[..|events| - 1]), events[|events| - 1])
  }

  /** What the live routing and the reports owe to the configuration and the last decision. */
  ghost predicate Governed(rebuild: Rebuild, g: GateState) {
    var corp := g.config.routing.corpNetwork;
    (g.enabled <==> corp.Some? && corp.value.enabled)
    && (g.enabled ==>
          g.suffixes == corp.value.dnsSuffixes && g.poll == if corp.value.pollSeconds == 0 then 1 else corp.value.pollSeconds)
    && (!g.enabled ==> g.suffixes == [] && g.poll == 30)
    && (g.enabled && g.last.Some? ==>
          g.live == (if g.last.value then rebuild(g.config) else Direct)
          && g.reports != [] && g.reports[|g.reports| - 1] == g.last)
    && (!g.enabled ==>
          g.last == None && g.live == rebuild(g.config)
          && (g.reports != [] ==> g.reports[|g.reports| - 1] == None))
    && (g.enabled && g.last == None ==> g.swaps == 0)
  }

  /** Over any sequence of events: an enabled gate that has decided c has `rebuild` of the current
      configuration live if c and the direct route otherwise, and last reported c; a disabled one
      keeps `rebuild` of the current configuration and reports nothing. */
  lemma {:induction false} GateGoverns(rebuild: Rebuild, config: Config, live: Routing, events: seq<Event>)
    requires GateParams(config).0 || live == rebuild(config)
    ensures Governed(rebuild, Run(rebuild, NewGate(config, live), events))
  {
    hide After, Governed;
    if events == [] {
      StartGoverns(rebuild, config, live);
    } else {
      var g := Run(rebuild, NewGate(config, live), events[..|events| - 1]);
      GateGoverns(rebuild, config, live, events[..|events| - 1]);
      EventGoverns(rebuild, g, events[|events| - 1]);
    }
  }

  lemma StartGoverns(rebuild: Rebuild, config: Config, live: Routing)
    requires GateParams(config).0 || live == rebuild(config)
    ensures Governed(rebuild, NewGate(config, live))
  {
  }

  lemma EventGoverns(rebuild: Rebuild, g: GateState, event: Event)
    requires Governed(rebuild, g)
    ensures Governed(rebuild, After(rebuild, g, event))
  {
    hide OnCorp;
  }

  /** After any event an enabled gate has decided by what that event detected, and a disabled gate has
      not been moved by it. */
  lemma DecisionIsCurrent(rebuild: Rebuild, g: GateState, event: Event)
    ensures var g' := After(rebuild, g, event);
            (g'.enabled ==> g'.last == Some(OnCorp(event.active, g'.suffixes)))
            && (!g.enabled && event.Evaluate? ==> g' == g)
  {
  }

  /** How often a sequence of decisions differs from the one before. */
  function Changes(last: Option<bool>, decisions: seq<bool>): nat
    decreases |decisions|
  {
    if decisions == [] then 0
    else (if last == Some(decisions[0]) then 0 else 1) + Changes(Some(decisions[0]), decisions[1..])
  }

  function Decisions(suffixes: seq<string>, detections: seq<seq<string>>): seq<bool> {
    if detections == [] then [] else [OnCorp(detections[0], suffixes)] + Decisions(suffixes, detections[1..])
  }

  function EvaluatedAll(rebuild: Rebuild, g: GateState, detections: seq<seq<string>>): GateState
    decreases |detections|
  {
    if detections == [] then g
    else EvaluatedAll(rebuild, Evaluated(rebuild, g, detections[0]), detections[1..])
  }

  /** Between reconfigurations the routing is swapped exactly when the decision changes. */
  lemma {:induction false} SwapsFollowChanges(rebuild: Rebuild, g: GateState, detections: seq<seq<string>>)
    requires g.enabled
    ensures var g' := EvaluatedAll(rebuild, g, detections);
            g'.swaps == g.swaps + Changes(g.last, Decisions(g.suffixes, detections))
            && |g'.reports| == |g.reports| + Changes(g.last, Decisions(g.suffixes, detections))
            && g'.config == g.config
    decreases |detections|
  {
    hide OnCorp;
    if detections != [] {
      SwapsFollowChanges(rebuild, Evaluated(rebuild, g, detections[0]), detections[1..]);
      var decisions := Decisions(g.suffixes, detections);
      assert decisions[1..] == Decisions(g.suffixes, detections[1..]);
    }
  }
}

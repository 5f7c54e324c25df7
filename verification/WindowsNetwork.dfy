/** The Windows watcher: interface edges start arbitrations, and only the newest may report. */
module WindowsNetwork {
  import opened Options
  import opened EdgeDetection

  type Luid = nat

  /** One notification, or one turn of an arbitration or of the baseline probe. */
  datatype Step =
    | Interface(row: Option<Luid>, connected: bool)  // no row: the interface is gone
    | Wireless
    | Baseline(online: bool)
    | Settle(number: nat)
    | Conclude(number: nat, reachable: bool, at: int)

  /** The machine's connectivity: unknown until the baseline or a first report. */
  datatype Online = Unknown | Is(online: bool)

  /**
   Arbitrations are numbered; `settling` and `probing` are those under way. The last three
   fields are history: the baseline if it was taken, what was reported to be the new
   connectivity and by which arbitration, and the events sent.
   */
  datatype State = State(seen: map<Luid, bool>, newest: nat, settling: set<nat>, probing: set<nat>,
                         online: Online, last: Option<Passed>,
                         baseline: Option<bool>, verdicts: seq<bool>, reporters: seq<nat>, sent: seq<EventKind>)

  const START: State := State(map[], 0, {}, {}, Unknown, None, None, [], [], [])

  predicate Enabled(s: State, step: Step) {
    match step
    case Settle(n) => n in s.settling
    case Conclude(n, _, _) => n in s.probing
    case _ => true
  }

  function Spawned(s: State): State {
    s.(newest := s.newest + 1, settling := s.settling + {s.newest + 1})
  }

  function Emit(s: State, kind: EventKind, at: int): State {
    if Allows(s.last, kind, at) then s.(last := Some(Passed(kind, at)), sent := s.sent + [kind]) else s
  }

  function Reported(s: State, n: nat, reachable: bool, at: int): State {
    var s' := s.(online := Is(reachable), verdicts := s.verdicts + [reachable], reporters := s.reporters + [n]);
    if reachable then Emit(Emit(s', Connect, at), EventKind.Online, at) else Emit(s', Disconnect, at)
  }

  function After(s: State, step: Step): State {
    match step
    case Interface(None, _) => Spawned(s)
    case Interface(Some(luid), connected) =>
      var s' := s.(seen := s.seen[luid := connected]);
      if IsEdge(s.seen, luid, connected) then Spawned(s') else s'
    case Wireless => Spawned(s)
    case Baseline(online) =>
      if s.online == Unknown then s.(online := Is(online), baseline := Some(online)) else s
    case Settle(n) =>
      var s' := s.(settling := s.settling - {n});
      if n != s.newest then s' else s'.(probing := s.probing + {n})
    case Conclude(n, reachable, at) =>
      var s' := s.(probing := s.probing - {n});
      if n != s.newest || s.online == Is(reachable) then s' else Reported(s', n, reachable, at)
  }

  class WindowsWatcher {
    const edge: EdgeDetector<Luid>
    const debouncer: Debouncer
    var newest: nat
    var settling: set<nat>
    var probing: set<nat>
    var online: Online
    var sent: seq<EventKind>
    ghost var baseline: Option<bool>
    ghost var verdicts: seq<bool>
    ghost var reporters: seq<nat>

    ghost function View(): State
      reads this, edge, debouncer
    {
      State(edge.seen, newest, settling, probing, online, debouncer.last, baseline, verdicts, reporters, sent)
    }

    constructor ()
      ensures fresh(edge) && fresh(debouncer) && View() == START
    {
      edge := new EdgeDetector();
      debouncer := new Debouncer();
      newest, settling, probing, online, sent := 0, {}, {}, Unknown, [];
      baseline, verdicts, reporters := None, [], [];
    }

    method SpawnArbitratedEvent()
      modifies this
      ensures View() == Spawned(old(View()))
    {
      newest := newest + 1;
      settling := settling + {newest};
    }

    method IpCallback(row: Option<Luid>, connected: bool)
      modifies this, edge
      ensures View() == After(old(View()), Interface(row, connected))
    {
      var changed := true;
      if row.Some? { changed := edge.Changed(row.value, connected); }
      if changed { SpawnArbitratedEvent(); }
    }

    method TakeBaseline(confirmed: bool)
      modifies this
      ensures View() == After(old(View()), Baseline(confirmed))
    {
      if online == Unknown {
        online := Is(confirmed);
        baseline := Some(confirmed);
      }
    }

    method SettleEdge(n: nat)
      requires n in settling
      modifies this
      ensures View() == After(old(View()), Settle(n))
    {
      settling := settling - {n};
      if newest != n { return; }
      probing := probing + {n};
    }

    method EmitArbitrated(kind: EventKind, at: int)
      modifies this`sent, debouncer
      ensures View() == Emit(old(View()), kind, at)
    {
      var ok := debouncer.Allow(kind, at);
      if ok { sent := sent + [kind]; }
    }

    method ConcludeEdge(n: nat, reachable: bool, at: int)
      requires n in probing
      modifies this, debouncer
      ensures View() == After(old(View()), Conclude(n, reachable, at))
    {
      probing := probing - {n};
      if newest != n { return; }
      if online == Is(reachable) { return; }
      online := Is(reachable);
      verdicts, reporters := verdicts + [reachable], reporters + [n];
      if reachable {
        EmitArbitrated(Connect, at);
        EmitArbitrated(EventKind.Online, at);
      } else {
        EmitArbitrated(Disconnect, at);
      }
    }
  }

  // ---------- whole runs ----------

  predicate Possible(s: State, steps: seq<Step>)
    decreases |steps|
  {
    steps == [] || (Enabled(s, steps[0]) && Possible(After(s, steps[0]), steps[1..]))
  }

  function Continue(s: State, steps: seq<Step>): State
    decreases |steps|
  {
    if steps == [] then s else Continue(After(s, steps[0]), steps[1..])
  }

  /** The connectivity known over time: the baseline if it came first, then each report. */
  function KnownOver(s: State): seq<bool> {
    (if s.baseline.Some? then [s.baseline.value] else []) + s.verdicts
  }

  /** What a report of this connectivity sends. */
  function EventsFor(online: bool): seq<EventKind> {
    if online then [Connect, EventKind.Online] else [Disconnect]
  }

  function EventsOf(verdicts: seq<bool>): seq<EventKind> {
    if verdicts == [] then []
    else EventsOf(verdicts[..|verdicts| - 1]) + EventsFor(verdicts[|verdicts| - 1])
  }

  predicate StrictlyIncreases(ns: seq<nat>) {
    forall i, j | 0 <= i < j < |ns| :: ns[i] < ns[j]
  }

  /** Connectivity and events agree with the history. */
  ghost predicate ReportsFit(s: State) {
    && Alternates(KnownOver(s))
    && s.online == (if KnownOver(s) == [] then Unknown else Is(KnownOver(s)[|KnownOver(s)| - 1]))
    && s.sent == EventsOf(s.verdicts)
    && (if s.sent == [] then s.last == None else s.last.Some? && s.last.value.kind == s.sent[|s.sent| - 1])
  }

  /** An arbitration settles, then probes, then reports, and numbers only grow. */
  ghost predicate NumbersFit(s: State) {
    && (forall n | n in s.settling :: n <= s.newest && n !in s.probing && n !in s.reporters)
    && (forall n | n in s.probing :: n <= s.newest && n !in s.reporters)
    && (forall n | n in s.reporters :: n <= s.newest)
    && StrictlyIncreases(s.reporters)
    && |s.reporters| == |s.verdicts|
  }

  /** The event sent last is never the one a turn starts with, so all events of a turn pass. */
  lemma TurnIsSent(s: State, n: nat, reachable: bool, at: int)
    requires s.last.Some? ==> s.last.value.kind == if reachable then Disconnect else EventKind.Online
    ensures var r := Reported(s, n, reachable, at);
            && r.sent == s.sent + EventsFor(reachable) && r.last.Some? && r.last.value.kind == r.sent[|r.sent| - 1]
            && r.verdicts == s.verdicts + [reachable] && r.reporters == s.reporters + [n]
            && r.online == Is(reachable) && r.baseline == s.baseline
  { }

  lemma ReportIsRecorded(s: State, n: nat, reachable: bool, at: int)
    ensures var r := Reported(s, n, reachable, at);
            r.verdicts == s.verdicts + [reachable] && r.reporters == s.reporters + [n]
  { }

  lemma LastEvent(verdicts: seq<bool>)
    ensures verdicts == [] <==> EventsOf(verdicts) == []
    ensures verdicts != [] ==> EventsOf(verdicts)[|EventsOf(verdicts)| - 1]
                               == if verdicts[|verdicts| - 1] then EventKind.Online else Disconnect
  { }

  lemma OneMoreVerdict(verdicts: seq<bool>, online: bool)
    ensures EventsOf(verdicts + [online]) == EventsOf(verdicts) + EventsFor(online)
  {
    assert (verdicts + [online])[..|verdicts|] == verdicts;
  }

  lemma OneMoreTurn(known: seq<bool>, online: bool)
    requires Alternates(known) && (known != [] ==> known[|known| - 1] != online)
    ensures Alternates(known + [online])
  { }

  lemma ReportKeepsFit(s: State, n: nat, reachable: bool, at: int)
    requires ReportsFit(s) && s.online != Is(reachable)
    ensures ReportsFit(Reported(s, n, reachable, at))
    ensures Reported(s, n, reachable, at).sent == s.sent + EventsFor(reachable)
  {
    hide Reported, EventsOf, Alternates;
    var known := KnownOver(s);
    if s.verdicts != [] { assert known[|known| - 1] == s.verdicts[|s.verdicts| - 1]; }
    LastEvent(s.verdicts);
    TurnIsSent(s, n, reachable, at);
    OneMoreVerdict(s.verdicts, reachable);
    OneMoreTurn(known, reachable);
    assert KnownOver(Reported(s, n, reachable, at)) == known + [reachable];
  }

  /** Numbers, settling, probing and seen interfaces do not matter to what was reported. */
  lemma QuietKeepsReports(s: State, s': State)
    requires ReportsFit(s)
    requires s'.online == s.online && s'.last == s.last && s'.baseline == s.baseline
    requires s'.verdicts == s.verdicts && s'.sent == s.sent
    ensures ReportsFit(s')
  {
    assert KnownOver(s') == KnownOver(s);
  }

  lemma StepKeepsReports(s: State, step: Step)
    requires ReportsFit(s)
    ensures ReportsFit(After(s, step))
  {
    hide Reported, ReportsFit;
    match step {
      case Conclude(n, reachable, at) =>
        var s' := s.(probing := s.probing - {n});
        QuietKeepsReports(s, s');
        if n == s.newest && s.online != Is(reachable) { ReportKeepsFit(s', n, reachable, at); }
      case Baseline(_) => BaselineKeepsReports(s, step);
      case _ => QuietKeepsReports(s, After(s, step));
    }
  }

  lemma BaselineKeepsReports(s: State, step: Step)
    requires ReportsFit(s) && step.Baseline?
    ensures ReportsFit(After(s, step))
  {
    hide EventsOf, Alternates;
    if s.online == Unknown {
      assert KnownOver(s) == [] && KnownOver(After(s, step)) == [] + [step.online];
      OneMoreTurn([], step.online);
    }
  }

  lemma ReportKeepsIncreasing(s: State, n: nat)
    requires NumbersFit(s) && n in s.probing && n == s.newest
    ensures StrictlyIncreases(s.reporters + [n])
  {
    forall i | 0 <= i < |s.reporters| ensures s.reporters[i] < n {
      assert s.reporters[i] in s.reporters;
    }
  }

  lemma StepKeepsNumbers(s: State, step: Step)
    requires NumbersFit(s) && Enabled(s, step)
    ensures NumbersFit(After(s, step))
  {
    hide Allows, StrictlyIncreases;
    if step.Conclude? && step.number == s.newest { ReportKeepsIncreasing(s, step.number); }
  }

  lemma {:induction false} RunKeeps(s: State, steps: seq<Step>)
    requires ReportsFit(s) && NumbersFit(s) && Possible(s, steps)
    ensures ReportsFit(Continue(s, steps)) && NumbersFit(Continue(s, steps))
    decreases |steps|
  {
    hide ReportsFit, NumbersFit, Enabled, After;
    if steps != [] {
      StepKeepsReports(s, steps[0]);
      StepKeepsNumbers(s, steps[0]);
      RunKeeps(After(s, steps[0]), steps[1..]);
    }
  }

  lemma StartFits()
    ensures ReportsFit(START) && NumbersFit(START)
  { }

  /**
   In every run the reports turn the connectivity around each time, beginning with the
   baseline if that came first; the stored connectivity is the last of them; all their
   events are sent; and each report is by an arbitration newer than the last one that reported.
   */
  lemma ReportsAlternate(steps: seq<Step>)
    requires Possible(START, steps)
    ensures var s := Continue(START, steps);
            && Alternates(KnownOver(s))
            && s.online == (if KnownOver(s) == [] then Unknown else Is(KnownOver(s)[|KnownOver(s)| - 1]))
            && s.sent == EventsOf(s.verdicts)
            && StrictlyIncreases(s.reporters) && |s.reporters| == |s.verdicts|
  {
    hide Possible, Continue;
    StartFits();
    RunKeeps(START, steps);
  }

  /** Only concluding the newest arbitration reports, and then exactly when the connectivity turned. */
  lemma OnlyTheNewestReports(steps: seq<Step>, step: Step)
    requires Possible(START, steps) && Enabled(Continue(START, steps), step)
    ensures var s := Continue(START, steps); var s' := After(s, step);
            && (s'.verdicts != s.verdicts <==>
                  step.Conclude? && step.number == s.newest && s.online != Is(step.reachable))
            && (s'.verdicts == s.verdicts ==> s'.sent == s.sent)
            && (s'.verdicts != s.verdicts ==>
                  s'.verdicts == s.verdicts + [step.reachable] && s'.reporters == s.reporters + [s.newest]
                  && s'.sent == s.sent + EventsFor(step.reachable))
  {
    hide Possible, Continue, Reported, EventsOf, Alternates, NumbersFit;
    StartFits();
    RunKeeps(START, steps);
    var s := Continue(START, steps);
    if step.Conclude? && step.number == s.newest && s.online != Is(step.reachable) {
      var s' := s.(probing := s.probing - {step.number});
      assert KnownOver(s') == KnownOver(s);
      ReportKeepsFit(s', step.number, step.reachable, step.at);
      ReportIsRecorded(s', step.number, step.reachable, step.at);
    }
  }

  // ---------- what starts an arbitration, and what it brings about ----------

  lemma {:induction false} ContinueJoin(s: State, a: seq<Step>, b: seq<Step>)
    ensures Continue(s, a + b) == Continue(Continue(s, a), b)
    decreases |a|
  {
    hide After;
    if a == [] {
      assert a + b == b;
    } else {
      assert (a + b)[0] == a[0] && (a + b)[1..] == a[1..] + b;
      ContinueJoin(After(s, a[0]), a[1..], b);
    }
  }

  lemma OneMoreStep(s: State, steps: seq<Step>, step: Step)
    ensures Continue(s, steps + [step]) == After(Continue(s, steps), step)
  {
    hide After;
    ContinueJoin(s, steps, [step]);
    var t := Continue(s, steps);
    assert [step][1..] == [];
    assert Continue(t, [step]) == Continue(After(t, step), []);
  }

  /** The latest reading of an interface among the notifications, if there was one. */
  function LatestOf(steps: seq<Step>, luid: Luid): Option<bool> {
    if steps == [] then None
    else
      match steps[|steps| - 1]
      case Interface(Some(l), connected) => if l == luid then Some(connected) else LatestOf(steps[..|steps| - 1], luid)
      case _ => LatestOf(steps[..|steps| - 1], luid)
  }

  /** A wireless notification, one without a row, or one with another reading than the latest of its interface. */
  predicate IsEdgeAfter(steps: seq<Step>, step: Step) {
    match step
    case Wireless => true
    case Interface(None, _) => true
    case Interface(Some(luid), connected) => LatestOf(steps, luid) == Some(!connected)
    case _ => false
  }

  function EdgeCount(steps: seq<Step>): nat {
    if steps == [] then 0
    else
      var n := |steps| - 1;
      EdgeCount(steps[..n]) + if IsEdgeAfter(steps[..n], steps[n]) then 1 else 0
  }

  /** The readings kept are the latest ones, and arbitrations are numbered by the edges so far. */
  ghost predicate CountsEdges(s: State, steps: seq<Step>) {
    && s.newest == EdgeCount(steps)
    && forall luid :: if luid in s.seen then LatestOf(steps, luid) == Some(s.seen[luid])
                      else LatestOf(steps, luid) == None
  }

  lemma StepCountsEdges(s: State, steps: seq<Step>, step: Step)
    requires CountsEdges(s, steps)
    ensures CountsEdges(After(s, step), steps + [step])
    ensures IsEdgeAfter(steps, step) ==> After(s, step).settling == s.settling + {s.newest + 1}
  {
    hide Reported;
    assert (steps + [step])[..|steps|] == steps;
    match step {
      case Conclude(n, reachable, at) =>
        ReportKeepsRest(s.(probing := s.probing - {n}), n, reachable, at);
      case _ =>
    }
  }

  lemma ReportKeepsRest(s: State, n: nat, reachable: bool, at: int)
    ensures var r := Reported(s, n, reachable, at);
            r.newest == s.newest && r.seen == s.seen && r.settling == s.settling && r.probing == s.probing
  { }

  /** In every run exactly the edges start arbitrations, each with the next number. */
  lemma {:induction false} ArbitrationsAreEdges(steps: seq<Step>)
    ensures CountsEdges(Continue(START, steps), steps)
    decreases |steps|
  {
    hide Continue, After, CountsEdges;
    if steps == [] {
      NothingCounts();
    } else {
      var n := |steps| - 1;
      assert steps == steps[..n] + [steps[n]];
      ArbitrationsAreEdges(steps[..n]);
      OneMoreStep(START, steps[..n], steps[n]);
      StepCountsEdges(Continue(START, steps[..n]), steps[..n], steps[n]);
    }
  }

  lemma NothingCounts()
    ensures CountsEdges(Continue(START, []), [])
  { }

  /**
   An edge that no other follows is decided: its arbitration settles, probes and concludes,
   the stored connectivity becomes what it found, and that is reported exactly if it is a turn.
   */
  lemma UndisturbedEdgeDecides(steps: seq<Step>, edge: Step, reachable: bool, at: int)
    requires Possible(START, steps) && IsEdgeAfter(steps, edge)
    ensures var s := Continue(START, steps);
            var n := s.newest + 1;
            var s1 := After(s, edge);
            var s2 := After(s1, Settle(n));
            var s3 := After(s2, Conclude(n, reachable, at));
            && Enabled(s1, Settle(n)) && Enabled(s2, Conclude(n, reachable, at)) && s3.online == Is(reachable)
            && s3.sent == s.sent + if s.online == Is(reachable) then []
                                   else if reachable then [Connect, EventKind.Online] else [Disconnect]
  {
    hide Possible, Continue, Reported, EventsOf, ReportsFit, NumbersFit;
    StartFits();
    RunKeeps(START, steps);
    ArbitrationsAreEdges(steps);
    var s := Continue(START, steps);
    var n := s.newest + 1;
    var s1 := After(s, edge);
    StepCountsEdges(s, steps, edge);
    EdgeReportsNothing(s, edge);
    var s2 := After(s1, Settle(n));
    assert s1.newest == n && n in s2.probing;
    if s.online != Is(reachable) {
      var t := s2.(probing := s2.probing - {n});
      QuietKeepsReports(s, t);
      ReportKeepsFit(t, n, reachable, at);
      ReportSetsOnline(t, n, reachable, at);
    }
  }

  lemma EdgeReportsNothing(s: State, edge: Step)
    requires edge.Wireless? || edge.Interface?
    ensures var r := After(s, edge);
            r.online == s.online && r.last == s.last && r.baseline == s.baseline && r.verdicts == s.verdicts
            && r.sent == s.sent && s.newest <= r.newest <= s.newest + 1
  { }

  lemma ReportSetsOnline(s: State, n: nat, reachable: bool, at: int)
    ensures Reported(s, n, reachable, at).online == Is(reachable)
  { }

  /** A baseline counts exactly if nothing was known before it; it sends nothing. */
  lemma BaselineCountsFirst(steps: seq<Step>, online: bool)
    requires Possible(START, steps)
    ensures var s := Continue(START, steps);
            var r := After(s, Baseline(online));
            r.sent == s.sent && r.online == if KnownOver(s) == [] then Is(online) else s.online
  {
    hide Possible, Continue, EventsOf, Alternates, NumbersFit;
    StartFits();
    RunKeeps(START, steps);
  }
}

/** The macOS watcher: path callbacks and online probes in any interleaving. */
module MacNetwork {
  import opened Options
  import opened EdgeDetection

  /** The system has one default path, so one key. */
  type PathKey = nat
  const DEFAULT_PATH: PathKey := 0

  datatype Event = PathUpdate(status: int, at: int) | ProbeSucceeded(at: int) | Stop

  datatype State = State(running: bool, seen: map<PathKey, bool>, last: Option<Passed>)

  /** Satisfied is 1 and unsatisfied 2; the states between say nothing. */
  function Connected(status: int): Option<bool> {
    if status == 1 then Some(true) else if status == 2 then Some(false) else None
  }

  function KindOf(connected: bool): EventKind {
    if connected then Connect else Disconnect
  }

  /** The connection change a callback carries, if it is one. */
  function ChangeIn(s: State, status: int): Option<bool> {
    match Connected(status)
    case None => None
    case Some(connected) => if s.running && IsEdge(s.seen, DEFAULT_PATH, connected) then Some(connected) else None
  }

  function Attempt(s: State, e: Event): Option<EventKind> {
    match e
    case PathUpdate(status, _) =>
      (match ChangeIn(s, status) case None => None case Some(connected) => Some(KindOf(connected)))
    case ProbeSucceeded(_) => Some(Online)
    case Stop => None
  }

  function Noted(s: State, e: Event): State {
    match e
    case PathUpdate(status, _) =>
      if s.running && Connected(status).Some?
      then s.(seen := s.seen[DEFAULT_PATH := Connected(status).value]) else s
    case ProbeSucceeded(_) => s
    case Stop => s.(running := false)
  }

  function After(s: State, e: Event): State {
    match Attempt(s, e)
    case None => Noted(s, e)
    case Some(kind) => Noted(s, e).(last := Debounced(s.last, kind, e.at))
  }

  function Report(s: State, e: Event): Option<EventKind> {
    match Attempt(s, e)
    case None => None
    case Some(kind) => if Allows(s.last, kind, e.at) then Some(kind) else None
  }

  class MacWatcher {
    const edge: EdgeDetector<PathKey>
    const debouncer: Debouncer
    var running: bool

    ghost function View(): State
      reads this, edge, debouncer
    {
      State(running, edge.seen, debouncer.last)
    }

    constructor ()
      ensures fresh(edge) && fresh(debouncer) && View() == START
    {
      edge := new EdgeDetector();
      debouncer := new Debouncer();
      running := true;
    }

    method StatusToConnectChange(status: int) returns (change: Option<bool>)
      modifies edge
      ensures Connected(status) == None ==> change == None && edge.seen == old(edge.seen)
      ensures Connected(status).Some? ==>
                && edge.seen == old(edge.seen)[DEFAULT_PATH := Connected(status).value]
                && change == if IsEdge(old(edge.seen), DEFAULT_PATH, Connected(status).value)
                    then Connected(status) else None
    {
      change := None;
      if status == 1 {
        var changed := edge.Changed(DEFAULT_PATH, true);
        if changed { change := Some(true); }
      } else if status == 2 {
        var changed := edge.Changed(DEFAULT_PATH, false);
        if changed { change := Some(false); }
      }
    }

    method PathUpdated(status: int, at: int) returns (report: Option<EventKind>)
      modifies edge, debouncer
      ensures View() == After(old(View()), PathUpdate(status, at))
      ensures report == Report(old(View()), PathUpdate(status, at))
    {
      report := None;
      if !running { return; }
      var change := StatusToConnectChange(status);
      if change == None { return; }
      var kind := if change.value then Connect else Disconnect;
      var ok := debouncer.Allow(kind, at);
      if ok { report := Some(kind); }
    }

    method ProbeDone(at: int) returns (report: Option<EventKind>)
      modifies debouncer
      ensures View() == After(old(View()), ProbeSucceeded(at))
      ensures report == Report(old(View()), ProbeSucceeded(at))
    {
      var ok := debouncer.Allow(Online, at);
      report := if ok then Some(Online) else None;
    }

    method StopWatching()
      modifies this
      ensures View() == After(old(View()), Stop)
    {
      running := false;
    }
  }

  // ---------- whole runs ----------

  const START: State := State(true, map[], None)

  function Emitted(s: State, e: Event): seq<EventKind> {
    match Report(s, e)
    case None => []
    case Some(kind) => [kind]
  }

  function Reports(s: State, events: seq<Event>): seq<EventKind>
    decreases |events|
  {
    if events == [] then [] else Emitted(s, events[0]) + Reports(After(s, events[0]), events[1..])
  }

  /** The connects and disconnects among the reports. */
  function Turns(reports: seq<EventKind>): seq<bool> {
    if reports == [] then []
    else (if reports[0] == Online then [] else [reports[0] == Connect]) + Turns(reports[1..])
  }

  /** The satisfied (1) and unsatisfied (2) statuses seen until the watcher is stopped. */
  function Statuses(events: seq<Event>): seq<bool> {
    if events == [] || events[0].Stop? then []
    else
      (match events[0]
       case PathUpdate(1, _) => [true]
       case PathUpdate(2, _) => [false]
       case _ => [])
      + Statuses(events[1..])
  }

  /** The debouncer last let through an online report or the direction last seen. */
  predicate Follows(s: State) {
    match s.last
    case None => true
    case Some(p) => p.kind == Online || (DEFAULT_PATH in s.seen && p.kind == KindOf(s.seen[DEFAULT_PATH]))
  }

  /** So it never swallows a change. */
  lemma ChangeIsReported(s: State, e: Event)
    requires Follows(s)
    ensures Follows(After(s, e))
    ensures e.PathUpdate? && ChangeIn(s, e.status).Some? ==> Report(s, e) == Some(KindOf(ChangeIn(s, e.status).value))
    ensures !(e.PathUpdate? && ChangeIn(s, e.status).Some?) ==> Report(s, e) in { None, Some(Online) }
  { }

  lemma {:induction false} TurnsOfMore(first: seq<EventKind>, rest: seq<EventKind>)
    requires |first| <= 1
    ensures Turns(first + rest) == Turns(first) + Turns(rest)
  {
    if first == [] {
      assert first + rest == rest;
    } else {
      assert (first + rest)[1..] == rest && first[1..] == [];
    }
  }

  lemma {:induction false} StoppedReportsNoTurn(s: State, events: seq<Event>)
    requires !s.running
    ensures Turns(Reports(s, events)) == []
    decreases |events|
  {
    if events != [] {
      StoppedReportsNoTurn(After(s, events[0]), events[1..]);
      TurnsOfMore(Emitted(s, events[0]), Reports(After(s, events[0]), events[1..]));
    }
  }

  /**
   Whatever online reports come between, the connects and disconnects are the satisfied and
   unsatisfied statuses with repeats collapsed and the head dropped.
   */
  lemma TurnsAreStatusChanges(events: seq<Event>)
    ensures Turns(Reports(START, events)) == Changes(Statuses(events))
  {
    TurnsFrom(START, events);
    assert [] + Statuses(events) == Statuses(events);
  }

  lemma {:induction false} TurnsFrom(s: State, events: seq<Event>)
    requires s.running && Follows(s)
    ensures Turns(Reports(s, events)) == Changes(Known(s.seen, DEFAULT_PATH) + Statuses(events))
    decreases |events|
  {
    hide Collapse, Changes, Allows, Debounced;
    var known := Known(s.seen, DEFAULT_PATH);
    if events == [] || events[0].Stop? {
      if events != [] {
        StoppedReportsNoTurn(After(s, events[0]), events[1..]);
        var rest := Reports(After(s, events[0]), events[1..]);
        assert Reports(s, events) == [] + rest == rest;
      }
      assert known + [] == known;
      FewValuesNeverChange(DEFAULT_PATH in s.seen && s.seen[DEFAULT_PATH]);
    } else {
      var e, s' := events[0], After(s, events[0]);
      var rest := Statuses(events[1..]);
      ChangeIsReported(s, e);
      TurnsFrom(s', events[1..]);
      TurnsOfMore(Emitted(s, e), Reports(s', events[1..]));
      if e.PathUpdate? && Connected(e.status).Some? {
        var value := Connected(e.status).value;
        assert Known(s'.seen, DEFAULT_PATH) + rest == [value] + rest == Statuses(events);
        if known == [] {
          assert known + Statuses(events) == Statuses(events);
        } else {
          OneMoreChange(known[0], Statuses(events));
        }
      } else {
        assert Statuses(events) == [] + rest == rest;
        assert s'.seen == s.seen;
      }
    }
  }

  // ---------- online reports ----------

  /** What was reported, with the instants. */
  function Log(s: State, events: seq<Event>): seq<Passed>
    decreases |events|
  {
    if events == [] then []
    else
      (match Report(s, events[0]) case None => [] case Some(kind) => [Passed(kind, events[0].at)])
      + Log(After(s, events[0]), events[1..])
  }

  /** The debouncer's state is the last report. */
  lemma {:induction false} ProbeIsLogged(s: State, events: seq<Event>, at: int)
    ensures var log := Before(s.last) + Log(s, events);
            Log(s, events + [ProbeSucceeded(at)]) ==
              Log(s, events) + if RepeatsTooSoon(log, Passed(Online, at)) then [] else [Passed(Online, at)]
    decreases |events|
  {
    hide Collapse;
    var probe := ProbeSucceeded(at);
    if events == [] {
      assert events + [probe] == [probe] && [probe][1..] == [];
      assert Before(s.last) + [] == Before(s.last);
      assert Log(After(s, probe), []) == [];
    } else {
      var e, rest := events[0], events[1..];
      assert (events + [probe])[0] == e && (events + [probe])[1..] == rest + [probe];
      ProbeIsLogged(After(s, e), rest, at);
      var tail := Log(After(s, e), rest);
      match Report(s, e) {
        case None =>
          assert Log(s, events) == [] + tail == tail;
          assert After(s, e).last == s.last;
        case Some(kind) =>
          assert Log(s, events) == [Passed(kind, e.at)] + tail;
          assert Before(s.last) + Log(s, events) == Before(s.last) + ([Passed(kind, e.at)] + tail);
          SameLast(Before(s.last), [Passed(kind, e.at)] + tail, Passed(Online, at));
      }
    }
  }

  /** In every run a successful probe is reported, unless an online report less than 500 ms before it was the last. */
  lemma ProbesAreReported(events: seq<Event>, at: int)
    ensures Log(START, events + [ProbeSucceeded(at)]) ==
              Log(START, events)
              + if RepeatsTooSoon(Log(START, events), Passed(Online, at)) then [] else [Passed(Online, at)]
  {
    ProbeIsLogged(START, events, at);
    assert [] + Log(START, events) == Log(START, events);
  }
}

/**
 Time zones as lists of UTC-offset changes. Instants and wall-clock readings are both
 counted in nanoseconds (since the Unix epoch, and since local midnight of day 0).
 */
module Zones {
  const SECOND: int := 1_000_000_000
  const MINUTE: int := 60 * SECOND
  const QUARTER: int := 15 * MINUTE
  const HOUR: int := 60 * MINUTE
  const DAY: int := 24 * HOUR

  /** From instant `at` on, local time is UTC plus `offset`. */
  datatype Transition = Transition(at: int, offset: int)

  datatype ZoneData = ZoneData(initial: int, transitions: seq<Transition>) {
    /** The offset in force after the first `i` transitions. */
    function Offset(i: nat): int
      requires i <= |transitions|
    {
      if i == 0 then initial else transitions[i - 1].offset
    }

    /** The wall-clock reading at which segment `i` starts, and the one at which segment `i - 1` stops. */
    function Opens(i: nat): int
      requires 0 < i <= |transitions|
    {
      transitions[i - 1].at + Offset(i)
    }

    function Closes(i: nat): int
      requires 0 < i <= |transitions|
    {
      transitions[i - 1].at + Offset(i - 1)
    }

    /** Changes are at least two days apart and set the clock back by a day at most. */
    predicate Regular() {
      && (forall i, j | 0 <= i < j < |transitions| :: transitions[i].at + 2 * DAY <= transitions[j].at)
      && (forall i | 0 < i <= |transitions| :: -DAY <= Opens(i) - Closes(i))
    }
  }

  type Zone = z: ZoneData | z.Regular() witness ZoneData(0, [])

  const UTC: Zone := ZoneData(0, [])

  /** The number of transitions that have happened by instant `t`. */
  function Segment(ts: seq<Transition>, t: int): (k: nat)
    ensures k <= |ts|
    ensures k > 0 ==> ts[k - 1].at <= t
    ensures forall j | k <= j < |ts| :: t < ts[j].at
  {
    if ts == [] then 0
    else if ts[|ts| - 1].at <= t then |ts|
    else Segment(ts[..|ts| - 1], t)
  }

  function SegmentAt(z: Zone, t: int): (k: nat)
    ensures k <= |z.transitions|
  {
    Segment(z.transitions, t)
  }

  /** What the wall clock of `z` shows at instant `t`. */
  function Local(z: Zone, t: int): int {
    t + z.Offset(SegmentAt(z, t))
  }

  function DateOf(local: int): int { local / DAY }

  function TimeOf(local: int): int { local % DAY }

  lemma DateBounds(local: int, d: int)
    ensures DateOf(local) < d <==> local < d * DAY
    ensures local == DateOf(local) * DAY + TimeOf(local) && 0 <= TimeOf(local) < DAY
  { }

  lemma SegmentIs(z: Zone, t: int, k: nat)
    requires k <= |z.transitions|
    requires k > 0 ==> z.transitions[k - 1].at <= t
    requires k < |z.transitions| ==> t < z.transitions[k].at
    ensures SegmentAt(z, t) == k
  {
    assert k < |z.transitions| ==> forall j | k < j < |z.transitions| :: t < z.transitions[j].at;
  }

  lemma SegmentMonotone(z: Zone, t: int, u: int)
    requires t <= u
    ensures SegmentAt(z, t) <= SegmentAt(z, u)
  {
    var s := SegmentAt(z, t);
    assert s > 0 ==> z.transitions[s - 1].at <= u;
  }

  // ---------- from wall clock back to instants ----------

  /** What `from_local_datetime` answers: no instant, one, or the two ends of a repeated reading. */
  datatype LocalResult = Gap | Single(instant: int) | Ambiguous(earliest: int, latest: int)

  predicate Ascending(p: seq<int>) {
    forall i, j | 0 <= i < j < |p| :: p[i] < p[j]
  }

  /** The instant of segment `i` at which the wall clock shows `local`, if there is one. */
  function InSegment(z: Zone, local: int, i: nat): (p: seq<int>)
    requires i <= |z.transitions|
    ensures forall t :: t in p <==> Local(z, t) == local && SegmentAt(z, t) == i
    ensures |p| <= 1
  {
    var t := local - z.Offset(i);
    if SegmentAt(z, t) == i then [t] else []
  }

  /** The instants in the first `n` segments at which the wall clock shows `local`, oldest first. */
  function Preimages(z: Zone, local: int, n: nat): seq<int>
    requires n <= |z.transitions| + 1
  {
    if n == 0 then [] else Preimages(z, local, n - 1) + InSegment(z, local, n - 1)
  }

  lemma {:induction false} PreimagesAreExact(z: Zone, local: int, n: nat)
    requires n <= |z.transitions| + 1
    ensures forall t :: t in Preimages(z, local, n) <==> Local(z, t) == local && SegmentAt(z, t) < n
  {
    hide Local, SegmentAt, InSegment;
    if n > 0 {
      PreimagesAreExact(z, local, n - 1);
      var earlier, last := Preimages(z, local, n - 1), InSegment(z, local, n - 1);
      forall t ensures t in earlier + last <==> Local(z, t) == local && SegmentAt(z, t) < n {
        assert t in last <==> Local(z, t) == local && SegmentAt(z, t) == n - 1;
      }
    }
  }

  lemma AscendingTogether(a: seq<int>, b: seq<int>)
    requires Ascending(a) && |b| <= 1 && (b != [] ==> forall i | 0 <= i < |a| :: a[i] < b[0])
    ensures Ascending(a + b)
  { }

  lemma {:induction false} PreimagesAscend(z: Zone, local: int, n: nat)
    requires n <= |z.transitions| + 1
    ensures Ascending(Preimages(z, local, n))
  {
    hide Local, SegmentAt, InSegment, Ascending;
    if n == 0 {
      AscendingTogether([], []);
      assert Preimages(z, local, n) == [] + [];
    } else {
      PreimagesAscend(z, local, n - 1);
      PreimagesAreExact(z, local, n - 1);
      var earlier, last := Preimages(z, local, n - 1), InSegment(z, local, n - 1);
      forall i | 0 <= i < |earlier| && last != [] ensures earlier[i] < last[0] {
        assert earlier[i] in earlier && last[0] in last;
        if last[0] <= earlier[i] { SegmentMonotone(z, last[0], earlier[i]); }
      }
      AscendingTogether(earlier, last);
    }
  }

  function Ends(p: seq<int>): LocalResult {
    if |p| == 0 then Gap
    else if |p| == 1 then Single(p[0])
    else Ambiguous(p[0], p[|p| - 1])
  }

  function FromLocal(z: Zone, local: int): LocalResult {
    Ends(Preimages(z, local, |z.transitions| + 1))
  }

  lemma {:induction false} OffsetDrift(z: Zone, i: nat, j: nat)
    requires i < j <= |z.transitions|
    ensures z.Offset(i) - z.Offset(j) <= (j - i) * DAY
    decreases j
  {
    if i + 1 < j { OffsetDrift(z, i, j - 1); }
    assert z.Opens(j) - z.Closes(j) >= -DAY;
  }

  lemma {:induction false} TransitionSpread(z: Zone, i: nat, j: nat)
    requires i <= j < |z.transitions|
    ensures z.transitions[j].at - z.transitions[i].at >= 2 * DAY * (j - i)
    decreases j
  {
    if i < j {
      TransitionSpread(z, i, j - 1);
      assert z.transitions[j - 1].at + 2 * DAY <= z.transitions[j].at;
    }
  }

  /** A wall-clock reading stands for at most two instants, so `LocalResult` loses none. */
  lemma ReadingsRepeatAtMostOnce(z: Zone, t: int, u: int, v: int)
    requires t < u < v
    requires Local(z, t) == Local(z, u)
    ensures Local(z, t) < Local(z, v)
  {
    SegmentMonotone(z, t, u);
    SegmentMonotone(z, u, v);
    var i, j := SegmentAt(z, t), SegmentAt(z, v);
    if SegmentAt(z, u) < j {
      assert i + 2 <= j;
      LocalGainsOverTwoSegments(z, t, v);
    }
  }

  lemma LocalGainsOverTwoSegments(z: Zone, t: int, v: int)
    requires SegmentAt(z, t) + 2 <= SegmentAt(z, v)
    ensures Local(z, t) < Local(z, v)
  {
    var i, j := SegmentAt(z, t), SegmentAt(z, v);
    OffsetDrift(z, i, j);
    TransitionSpread(z, i, j - 1);
    assert t < z.transitions[i].at;
    assert z.transitions[j - 1].at <= v;
  }

  ghost predicate Reports(z: Zone, local: int, r: LocalResult) {
    match r
    case Gap => forall t :: Local(z, t) != local
    case Single(s) => forall t :: Local(z, t) == local <==> t == s
    case Ambiguous(e, l) => e < l && forall t :: Local(z, t) == local <==> t == e || t == l
  }

  /** `FromLocal` reports exactly the instants at which the wall clock shows `local`. */
  lemma FromLocalIsExact(z: Zone, local: int)
    ensures Reports(z, local, FromLocal(z, local))
  {
    var p := Preimages(z, local, |z.transitions| + 1);
    PreimagesAreExact(z, local, |z.transitions| + 1);
    PreimagesAscend(z, local, |z.transitions| + 1);
    EndsAreExact(z, local, p);
  }

  lemma EndsAreExact(z: Zone, local: int, p: seq<int>)
    requires forall t :: Local(z, t) == local <==> t in p
    requires Ascending(p)
    ensures Reports(z, local, Ends(p))
  {
    assert forall i | 0 <= i < |p| :: p[i] in p;
    if |p| > 2 {
      ReadingsRepeatAtMostOnce(z, p[0], p[1], p[2]);
      assert false;
    }
  }

  // ---------- how the wall clock moves ----------

  /** Wherever the clock is set back, it is not set back across the reading `mark`. */
  predicate NeverSetBackAcross(z: Zone, mark: int) {
    forall i | 0 < i <= |z.transitions| :: !(z.Opens(i) < mark < z.Closes(i))
  }

  /** Once the wall clock has reached such a reading it never shows an earlier one again. */
  lemma {:induction false} ReachedStaysReached(z: Zone, mark: int, t: int, u: int)
    requires NeverSetBackAcross(z, mark)
    requires t <= u && mark <= Local(z, t)
    ensures mark <= Local(z, u)
    decreases SegmentAt(z, u)
  {
    SegmentMonotone(z, t, u);
    var k := SegmentAt(z, u);
    if SegmentAt(z, t) < k {
      var w := z.transitions[k - 1].at - 1;
      SegmentIs(z, w, k - 1);
      ReachedStaysReached(z, mark, t, w);
      assert Local(z, w) == z.Closes(k) - 1;
      assert z.Opens(k) <= Local(z, u);
    }
  }

  /** At a set-back across `mark` the clock reaches it and then shows an earlier reading. */
  lemma SetBackForgets(z: Zone, mark: int, i: nat)
    requires 0 < i <= |z.transitions|
    requires z.Opens(i) < mark < z.Closes(i)
    ensures var a := z.transitions[i - 1].at;
            && Local(z, mark - z.Offset(i - 1)) == mark && mark - z.Offset(i - 1) < a
            && Local(z, a) == z.Opens(i) && Local(z, mark - z.Offset(i)) == mark && a < mark - z.Offset(i)
  {
    var a := z.transitions[i - 1].at;
    SegmentIs(z, mark - z.Offset(i - 1), i - 1);
    SegmentIs(z, a, i);
    SegmentIs(z, mark - z.Offset(i), i);
  }

  /** The wall clock never falls behind an earlier reading by more than `most`. */
  lemma DropIsBounded(z: Zone, most: int, t: int, u: int)
    requires 0 <= most
    requires forall i | 0 < i <= |z.transitions| :: z.Closes(i) - z.Opens(i) <= most
    requires t <= u
    ensures Local(z, t) - Local(z, u) <= most
  {
    SegmentMonotone(z, t, u);
    var s, k := SegmentAt(z, t), SegmentAt(z, u);
    if s < k {
      ClosingsGrow(z, t, k);
      assert z.Closes(k) - z.Opens(k) <= most;
    }
  }

  lemma {:induction false} ClosingsGrow(z: Zone, t: int, k: nat)
    requires SegmentAt(z, t) < k <= |z.transitions|
    ensures Local(z, t) < z.Closes(k)
    decreases k
  {
    if SegmentAt(z, t) + 1 < k {
      ClosingsGrow(z, t, k - 1);
      assert z.transitions[k - 2].at + 2 * DAY <= z.transitions[k - 1].at;
      assert z.Opens(k - 1) - z.Closes(k - 1) >= -DAY;
    }
  }

  // ---------- zones whose clock changes stay inside a day ----------

  /**
   No gap is longer than two hours, and neither a gap (with a quarter hour of slack after
   it) nor a repeated stretch crosses local midnight.
   */
  predicate Calm(z: Zone) {
    forall i | 0 < i <= |z.transitions| ::
      && z.Opens(i) - z.Closes(i) <= 2 * HOUR
      && (z.Closes(i) < z.Opens(i) ==> DateOf(z.Closes(i)) == DateOf(z.Opens(i) + QUARTER - 1))
      && (z.Opens(i) < z.Closes(i) ==> DateOf(z.Opens(i)) == DateOf(z.Closes(i) - 1))
  }

  lemma MidnightNotSetBack(z: Zone, d: int)
    requires Calm(z)
    ensures NeverSetBackAcross(z, d * DAY)
  {
    forall i | 0 < i <= |z.transitions| ensures !(z.Opens(i) < d * DAY < z.Closes(i)) {
      DateBounds(z.Opens(i), d);
      DateBounds(z.Closes(i) - 1, d);
    }
  }

  /** In a calm zone local dates never go back. */
  lemma DatesNeverGoBack(z: Zone, t: int, u: int)
    requires Calm(z) && t <= u
    ensures DateOf(Local(z, t)) <= DateOf(Local(z, u))
  {
    hide Calm, Local, NeverSetBackAcross;
    var d := DateOf(Local(z, t));
    MidnightNotSetBack(z, d);
    DateBounds(Local(z, t), d);
    ReachedStaysReached(z, d * DAY, t, u);
    DateBounds(Local(z, u), d);
  }

  /** A skipped reading lies in the gap opened by some transition. */
  lemma {:induction false} SkippedLiesInGap(z: Zone, local: int, n: nat) returns (i: nat)
    requires n <= |z.transitions|
    requires forall t :: Local(z, t) != local
    requires n < |z.transitions| ==> local < z.Opens(n + 1)
    ensures 0 < i <= |z.transitions| && z.Closes(i) <= local < z.Opens(i)
  {
    var t := local - z.Offset(n);
    assert Local(z, t) != local;
    if n > 0 && local < z.Opens(n) {
      i := SkippedLiesInGap(z, local, n - 1);
    } else {
      if n == |z.transitions| || t < z.transitions[n].at {
        SegmentIs(z, t, n);
        assert false;
      }
      i := n + 1;
    }
  }
}

/** Interval triggers stay on their grid; the cron search crosses a repeated hour and stops. */
module IntervalAndCron {
  import opened Options
  import opened Zones
  import opened Triggers
  import opened Evaluator

  // ---------- Interval ----------

  function GridPoint(start: int, secs: nat, k: nat): int {
    start + k * secs * SECOND
  }

  lemma SecondsBracket(elapsed: int, secs: nat)
    requires 0 <= elapsed && 0 < secs
    ensures var q := elapsed / SECOND / secs; q >= 0 && q * secs * SECOND <= elapsed < (q + 1) * secs * SECOND
  {
    var whole := elapsed / SECOND;
    var q := whole / secs;
    assert q * secs <= whole < (q + 1) * secs by {
      assert whole == q * secs + whole % secs;
    }
    assert whole + 1 <= (q + 1) * secs;
  }

  lemma GridGrows(start: int, secs: nat, j: nat, k: nat)
    requires j <= k
    ensures GridPoint(start, secs, j) <= GridPoint(start, secs, k)
  {
    assert j * secs <= k * secs;
  }

  /** An anchored interval answers the least grid point strictly after `after`, sub-second instants included. */
  lemma IntervalIsLeastGridPoint(secs: nat, start: int, after: int) returns (k: nat)
    requires 0 < secs
    ensures NextInterval(secs, Some(start), after) == Some(GridPoint(start, secs, k))
    ensures GridPoint(start, secs, k) > after
    ensures forall j: nat | GridPoint(start, secs, j) > after :: GridPoint(start, secs, k) <= GridPoint(start, secs, j)
    ensures k == 0 <==> after < start
  {
    if after < start {
      k := 0;
      forall j: nat ensures GridPoint(start, secs, 0) <= GridPoint(start, secs, j) { GridGrows(start, secs, 0, j); }
    } else {
      var q := (after - start) / SECOND / secs;
      SecondsBracket(after - start, secs);
      k := q + 1;
      forall j: nat | GridPoint(start, secs, j) > after ensures GridPoint(start, secs, k) <= GridPoint(start, secs, j) {
        if j <= q { GridGrows(start, secs, j, q); }
        GridGrows(start, secs, if j <= q then 0 else k, if j <= q then 0 else j);
      }
    }
  }

  /** An interval without a start answers exactly its length after the instant asked. */
  lemma UnanchoredIntervalWaits(env: Env, secs: nat, after: int, rolls: Rolls)
    requires 0 < secs
    ensures Next(env, Interval(secs, None), after, rolls) == Some(after + secs * 1_000_000_000)
  {
    SecondsBracket(0, secs);
  }

  // ---------- Cron ----------

  /** A wall-clock minute the expression matches and the zone's clock shows at some time. */
  ghost predicate IsMatch(z: Zone, matches: iset<int>, local: int) {
    local % MINUTE == 0 && local in matches && exists t :: Local(z, t) == local
  }

  /** `t` is the first instant at which the clock shows a matching minute. */
  ghost predicate FirstShows(z: Zone, matches: iset<int>, t: int) {
    IsMatch(z, matches, Local(z, t)) && forall u :: Local(z, u) == Local(z, t) ==> t <= u
  }

  ghost predicate FindsNextFrom(find: Matcher, z: Zone, matches: iset<int>, anchor: int) {
    match find(z, anchor)
    case Found(c) =>
      && FirstShows(z, matches, c) && Local(z, anchor) < Local(z, c)
      && forall m | IsMatch(z, matches, m) && Local(z, anchor) < m :: Local(z, c) <= m
    case InvalidTime => false
    case NoMatch => false
  }

  /** The library's contract: from any anchor up to `until`, the earlier instant of the next matching local minute. */
  ghost predicate FindsNextMinute(find: Matcher, z: Zone, matches: iset<int>, until: int) {
    forall anchor | anchor <= until :: FindsNextFrom(find, z, matches, anchor)
  }

  /** No stretch of local time is repeated for more than two hours. */
  predicate RepeatsAtMostTwoHours(z: Zone) {
    forall i | 0 < i <= |z.transitions| :: z.Closes(i) - z.Opens(i) <= 2 * HOUR
  }

  function MinuteOf(local: int): int { local / MINUTE }

  /** `t` is the least instant after `after` at which a matching minute is first shown. */
  ghost predicate LeastMatchAfter(z: Zone, matches: iset<int>, after: int, t: int) {
    && t > after && FirstShows(z, matches, t)
    && forall u :: FirstShows(z, matches, u) && u > after ==> t <= u
  }

  /** A reading the clock has passed was already shown: its first instant is not ahead. */
  lemma PassedReadingsWereShown(z: Zone, matches: iset<int>, after: int, u: int)
    requires FirstShows(z, matches, u) && Local(z, u) <= Local(z, after)
    ensures u <= after
  {
    if after < u {
      SegmentMonotone(z, after, u);
      var s, k := SegmentAt(z, after), SegmentAt(z, u);
      if s + 2 <= k {
        LocalGainsOverTwoSegments(z, after, u);
      } else if s < k {
        ShownOneSegmentEarlier(z, after, u);
      }
    }
  }

  lemma ShownOneSegmentEarlier(z: Zone, after: int, u: int)
    requires SegmentAt(z, u) == SegmentAt(z, after) + 1
    requires Local(z, u) <= Local(z, after)
    ensures exists t :: t <= after && Local(z, t) == Local(z, u)
  {
    var s := SegmentAt(z, after);
    var t := Local(z, u) - z.Offset(s);
    assert Local(z, u) >= z.Opens(s + 1) && z.Opens(s + 1) - z.Closes(s + 1) >= -DAY;
    if s > 0 { assert z.transitions[s - 1].at + 2 * DAY <= z.transitions[s].at; }
    assert t <= after;
    SegmentIs(z, t, s);
    assert Local(z, t) == Local(z, u);
  }

  lemma MinutesAdvance(a: int, c: int)
    requires c % MINUTE == 0 && a < c
    ensures MinuteOf(a) < MinuteOf(c)
  { }

  lemma MinutesWithin(c: int, after: int)
    requires c - after <= 2 * HOUR
    ensures MinuteOf(c) <= MinuteOf(after) + 120
  { }

  lemma {:induction false} CronAdvances(find: Matcher, z: Zone, matches: iset<int>, after: int, anchor: int,
      rounds: nat)
    requires FindsNextMinute(find, z, matches, after) && RepeatsAtMostTwoHours(z)
    requires anchor <= after
    requires forall u :: FirstShows(z, matches, u) && Local(z, u) <= Local(z, anchor) ==> u <= after
    requires MinuteOf(Local(z, after)) + 120 - MinuteOf(Local(z, anchor)) < rounds
    ensures var r := CronFrom(find, z, after, anchor, rounds); r.Some? && LeastMatchAfter(z, matches, after, r.value)
    decreases rounds
  {
    hide Local, MinuteOf, FirstShows;
    assert FindsNextFrom(find, z, matches, anchor);
    DropIsBounded(z, 2 * HOUR, anchor, after);
    MinutesWithin(Local(z, anchor), Local(z, after));
    var c := find(z, anchor).candidate;
    FirstShowsMatch(z, matches, c);
    if c > after {
      forall u | FirstShows(z, matches, u) && u > after ensures c <= u {
        FirstShowsMatch(z, matches, u);
        if Local(z, u) == Local(z, c) {
          FirstShowsIsFirst(z, matches, c, u);
        } else if u < c {
          PassedReadingsWereShown(z, matches, u, c);
        }
      }
    } else {
      MinutesAdvance(Local(z, anchor), Local(z, c));
      forall u | FirstShows(z, matches, u) && Local(z, u) <= Local(z, c) ensures u <= after {
        if Local(z, anchor) < Local(z, u) {
          FirstShowsMatch(z, matches, u);
          FirstShowsIsFirst(z, matches, u, c);
        }
      }
      CronAdvances(find, z, matches, after, c, rounds - 1);
    }
  }

  lemma FirstShowsMatch(z: Zone, matches: iset<int>, t: int)
    requires FirstShows(z, matches, t)
    ensures IsMatch(z, matches, Local(z, t))
  { }

  lemma FirstShowsIsFirst(z: Zone, matches: iset<int>, t: int, u: int)
    requires FirstShows(z, matches, t) && Local(z, u) == Local(z, t)
    ensures t <= u
  { }

  /**
   Given the library's contract at anchors up to `after`, the search never uses up its 240 rounds: 121 are enough,
   and the answer is the least first showing of a matching minute strictly after `after`.
   */
  lemma CronIsLeastMatch(find: Matcher, z: Zone, matches: iset<int>, after: int)
    requires FindsNextMinute(find, z, matches, after) && RepeatsAtMostTwoHours(z)
    ensures var r := CronFrom(find, z, after, after, CRON_ROUNDS);
            && r.Some? && LeastMatchAfter(z, matches, after, r.value)
            && r == CronFrom(find, z, after, after, 121)
  {
    hide Local, MinuteOf, FirstShows, CronFrom;
    forall u | FirstShows(z, matches, u) && Local(z, u) <= Local(z, after) ensures u <= after {
      PassedReadingsWereShown(z, matches, after, u);
    }
    CronAdvances(find, z, matches, after, after, CRON_ROUNDS);
    CronAdvances(find, z, matches, after, after, 121);
  }

  /** Anchors the library calls invalid are stepped over hour by hour, and the first find after them is the answer. */
  lemma {:induction false} InvalidAnchorsAreSteppedOver(find: Matcher, z: Zone, after: int, anchor: int, rounds: nat,
                                                        hours: nat)
    requires hours < rounds
    requires forall k: nat | k < hours :: find(z, anchor + k * 3_600 * 1_000_000_000) == InvalidTime
    ensures match find(z, anchor + hours * 3_600 * 1_000_000_000)
            case Found(c) => c > after ==> CronFrom(find, z, after, anchor, rounds) == Some(c)
            case NoMatch => CronFrom(find, z, after, anchor, rounds) == None
            case InvalidTime => hours + 1 == rounds ==> CronFrom(find, z, after, anchor, rounds) == None
    decreases hours
  {
    if hours > 0 {
      assert find(z, anchor + 0 * 3_600 * 1_000_000_000) == InvalidTime;
      forall k: nat | k < hours - 1 ensures find(z, anchor + HOUR + k * 3_600 * 1_000_000_000) == InvalidTime {
        assert find(z, anchor + (k + 1) * 3_600 * 1_000_000_000) == InvalidTime;
        assert anchor + HOUR + k * 3_600 * 1_000_000_000 == anchor + (k + 1) * 3_600 * 1_000_000_000;
      }
      InvalidAnchorsAreSteppedOver(find, z, after, anchor + HOUR, rounds - 1, hours - 1);
      assert anchor + HOUR + (hours - 1) * 3_600 * 1_000_000_000 == anchor + hours * 3_600 * 1_000_000_000;
    }
  }
}

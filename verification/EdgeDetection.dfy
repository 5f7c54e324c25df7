/** Edge detection over status snapshots, and the shared debouncer. */
module EdgeDetection {
  import opened Options

  datatype EventKind = Connect | Disconnect | Online

  // ---------- edges ----------

  class EdgeDetector<K(==)> {
    var seen: map<K, bool>

    constructor ()
      ensures seen == map[]
    {
      seen := map[];
    }

    /** A first observation is recorded but is no change. */
    method Changed(key: K, value: bool) returns (changed: bool)
      modifies this
      ensures seen == old(seen)[key := value]
      ensures changed <==> IsEdge(old(seen), key, value)
    {
      changed := key in seen && seen[key] != value;
      seen := seen[key := value];
    }
  }

  predicate IsEdge<K>(seen: map<K, bool>, key: K, value: bool) {
    key in seen && seen[key] != value
  }

  datatype Observation<K> = Observation(key: K, value: bool)

  /** What the detector reports for one key while it is fed these observations. */
  function Edges<K(==)>(seen: map<K, bool>, feed: seq<Observation<K>>, key: K): seq<bool>
    decreases |feed|
  {
    if feed == [] then []
    else
      var o := feed[0];
      (if o.key == key && IsEdge(seen, key, o.value) then [o.value] else [])
      + Edges(seen[o.key := o.value], feed[1..], key)
  }

  /** The values observed for one key. */
  function ValuesOf<K(==)>(feed: seq<Observation<K>>, key: K): seq<bool> {
    if feed == [] then []
    else (if feed[0].key == key then [feed[0].value] else []) + ValuesOf(feed[1..], key)
  }

  /** Repeats collapsed: each value that its successor repeats is dropped. */
  function Collapse(values: seq<bool>): (c: seq<bool>)
    ensures c == [] <==> values == []
    ensures values != [] ==> c[0] == values[0] && c[|c| - 1] == values[|values| - 1]
    ensures Alternates(c)
  {
    if |values| < 2 then values
    else if values[0] == values[1] then Collapse(values[1..])
    else [values[0]] + Collapse(values[1..])
  }

  predicate Alternates(values: seq<bool>) {
    forall i | 0 < i < |values| :: values[i - 1] != values[i]
  }

  /** The changes in a sequence of values: repeats collapsed, head dropped. */
  function Changes(values: seq<bool>): seq<bool> {
    if values == [] then [] else Collapse(values)[1..]
  }

  lemma OneMoreChange(first: bool, values: seq<bool>)
    requires values != []
    ensures Changes([first] + values) == (if first != values[0] then [values[0]] else []) + Changes(values)
  {
    assert ([first] + values)[1..] == values;
    if first != values[0] {
      assert Collapse(values) == [values[0]] + Collapse(values)[1..];
    }
  }

  lemma FewValuesNeverChange(value: bool)
    ensures Changes([]) == [] && Changes([value]) == []
  { }

  function Known<K>(seen: map<K, bool>, key: K): seq<bool> {
    if key in seen then [seen[key]] else []
  }

  /** Each key is tracked on its own, and what is reported for it are the changes of its values. */
  lemma {:induction false} EdgesAreChanges<K>(seen: map<K, bool>, feed: seq<Observation<K>>, key: K)
    ensures Edges(seen, feed, key) == Changes(Known(seen, key) + ValuesOf(feed, key))
    decreases |feed|
  {
    hide Collapse, Changes;
    if feed == [] {
      assert Known(seen, key) + [] == Known(seen, key);
      FewValuesNeverChange(key in seen && seen[key]);
    } else {
      var o := feed[0];
      var next := seen[o.key := o.value];
      var rest := ValuesOf(feed[1..], key);
      EdgesAreChanges(next, feed[1..], key);
      if o.key == key {
        assert ValuesOf(feed, key) == [o.value] + rest == Known(next, key) + rest;
        if key in seen {
          OneMoreChange(seen[key], [o.value] + rest);
        } else {
          assert [] + ([o.value] + rest) == [o.value] + rest;
        }
      } else {
        assert ValuesOf(feed, key) == [] + rest == rest;
        assert Known(next, key) == Known(seen, key);
      }
    }
  }

  // ---------- debouncing ----------

  /** Instants are nanoseconds of a monotonic clock; going back counts as no time. */
  datatype Passed = Passed(kind: EventKind, at: int)

  function Millis(from: int, to: int): int {
    if to < from then 0 else (to - from) / 1_000_000
  }

  predicate Allows(last: Option<Passed>, kind: EventKind, now: int) {
    !(last.Some? && last.value.kind == kind && Millis(last.value.at, now) < 500)
  }

  function Debounced(last: Option<Passed>, kind: EventKind, now: int): Option<Passed> {
    if Allows(last, kind, now) then Some(Passed(kind, now)) else last
  }

  class Debouncer {
    var last: Option<Passed>

    constructor ()
      ensures last == None
    {
      last := None;
    }

    method Allow(kind: EventKind, now: int) returns (ok: bool)
      modifies this
      ensures ok <==> Allows(old(last), kind, now)
      ensures last == Debounced(old(last), kind, now)
    {
      match last {
        case Some(p) =>
          if p.kind == kind && Millis(p.at, now) < 500 { return false; }
        case None =>
      }
      last := Some(Passed(kind, now));
      return true;
    }
  }

  /** What passes the debouncer out of a sequence of attempts. */
  function Let(last: Option<Passed>, attempts: seq<Passed>): seq<Passed>
    decreases |attempts|
  {
    if attempts == [] then []
    else
      var a := attempts[0];
      (if Allows(last, a.kind, a.at) then [a] else []) + Let(Debounced(last, a.kind, a.at), attempts[1..])
  }

  /** Neighbours of the same kind are at least 500 ms apart. */
  predicate Apart(through: seq<Passed>) {
    forall i | 0 < i < |through| && through[i - 1].kind == through[i].kind ::
      through[i].at - through[i - 1].at >= 500_000_000
  }

  function Before(last: Option<Passed>): seq<Passed> {
    if last.Some? then [last.value] else []
  }

  lemma {:induction false} PassedAreApart(last: Option<Passed>, attempts: seq<Passed>)
    ensures Apart(Before(last) + Let(last, attempts))
    decreases |attempts|
  {
    if attempts != [] {
      var a := attempts[0];
      var next := Debounced(last, a.kind, a.at);
      var rest := Let(next, attempts[1..]);
      PassedAreApart(next, attempts[1..]);
      if Allows(last, a.kind, a.at) {
        assert Let(last, attempts) == [a] + rest;
        var all := Before(last) + ([a] + rest);
        forall i | 0 < i < |all| && all[i - 1].kind == all[i].kind ensures all[i].at - all[i - 1].at >= 500_000_000 {
          var j := i - |Before(last)|;
          if j > 0 { assert all[i] == ([a] + rest)[j] && all[i - 1] == ([a] + rest)[j - 1]; }
        }
      } else {
        assert Let(last, attempts) == rest;
      }
    }
  }

  /** The attempt repeats the kind that passed last, less than 500 ms after it. */
  predicate RepeatsTooSoon(through: seq<Passed>, a: Passed) {
    through != [] && through[|through| - 1].kind == a.kind && a.at - through[|through| - 1].at < 500_000_000
  }

  /** Exactly such an attempt is dropped. */
  lemma {:induction false} OnlyQuickRepeatsAreDropped(last: Option<Passed>, attempts: seq<Passed>, a: Passed)
    ensures Let(last, attempts + [a]) ==
              Let(last, attempts)
              + if RepeatsTooSoon(Before(last) + Let(last, attempts), a) then [] else [a]
    decreases |attempts|
  {
    if attempts == [] {
      assert attempts + [a] == [a] && [a][1..] == [];
      assert Before(last) + [] == Before(last);
      assert Let(last, [a]) == (if Allows(last, a.kind, a.at) then [a] else []) + [];
    } else {
      var first, rest := attempts[0], attempts[1..];
      var next := Debounced(last, first.kind, first.at);
      assert (attempts + [a])[0] == first && (attempts + [a])[1..] == rest + [a];
      OnlyQuickRepeatsAreDropped(next, rest, a);
      if Allows(last, first.kind, first.at) {
        assert Let(last, attempts) == [first] + Let(next, rest);
        assert Before(last) + Let(last, attempts) == Before(last) + (Before(next) + Let(next, rest));
        SameLast(Before(last), Before(next) + Let(next, rest), a);
      } else {
        assert Let(last, attempts) == [] + Let(next, rest) == Let(next, rest);
      }
    }
  }

  lemma SameLast(before: seq<Passed>, through: seq<Passed>, a: Passed)
    requires through != []
    ensures RepeatsTooSoon(before + through, a) <==> RepeatsTooSoon(through, a)
  { }
}

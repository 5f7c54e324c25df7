/** The queue of upcoming firings: a heap with lazy deletion, refining an eager multiset of entries. */
module Queues {
  import opened Options
  import opened Triggers

  datatype ScheduledItem = ScheduledItem(task: TaskId, trigger: TriggerId, at: int, generation: nat)

  /** A scheduled firing, without the bookkeeping generation. */
  datatype Entry = Entry(task: TaskId, trigger: TriggerId, at: int)

  function EntryOf(item: ScheduledItem): Entry {
    Entry(item.task, item.trigger, item.at)
  }

  /** The heap's `Ord`: earlier time, then larger task, larger trigger, larger generation is greater. */
  predicate Outranks(a: ScheduledItem, b: ScheduledItem) {
    || a.at < b.at
    || (a.at == b.at && a.task > b.task)
    || (a.at == b.at && a.task == b.task && a.trigger > b.trigger)
    || (a.at == b.at && a.task == b.task && a.trigger == b.trigger && a.generation > b.generation)
  }

  ghost predicate IsTop(top: ScheduledItem, heap: multiset<ScheduledItem>) {
    top in heap && forall o | o in heap :: o == top || Outranks(top, o)
  }

  /** Firing order: time, then larger task id, then larger trigger id. */
  predicate Before(a: Entry, b: Entry) {
    || a.at < b.at
    || (a.at == b.at && a.task > b.task)
    || (a.at == b.at && a.task == b.task && a.trigger > b.trigger)
  }

  ghost predicate IsFirst(e: Entry, m: multiset<Entry>) {
    e in m && forall f | f in m :: f == e || Before(e, f)
  }

  lemma FirstIsUnique(m: multiset<Entry>, e: Entry, f: Entry)
    requires IsFirst(e, m) && IsFirst(f, m)
    ensures e == f
  { }

  /** The first entry: none is earlier, and at its time none has a larger task, or in its task a larger trigger. */
  lemma FirstMeans(m: multiset<Entry>, e: Entry)
    ensures IsFirst(e, m) <==>
              e in m && forall f | f in m ::
                && e.at <= f.at
                && (e.at == f.at ==> f.task <= e.task)
                && (e.at == f.at && e.task == f.task ==> f.trigger <= e.trigger)
  { }

  lemma {:induction false} FirstExists(m: multiset<Entry>) returns (e: Entry)
    requires m != multiset{}
    ensures IsFirst(e, m)
    decreases |m|
  {
    e :| e in m;
    var rest := m - multiset{e};
    if rest != multiset{} {
      var f := FirstExists(rest);
      if Before(f, e) { e := f; }
    }
  }

  lemma {:induction false} TopExists(heap: multiset<ScheduledItem>) returns (top: ScheduledItem)
    requires heap != multiset{}
    ensures IsTop(top, heap)
    decreases |heap|
  {
    top :| top in heap;
    var rest := heap - multiset{top};
    if rest != multiset{} {
      var o := TopExists(rest);
      if Outranks(o, top) { top := o; }
    }
  }

  // ---------- multisets of entries ----------

  ghost function Keep<T(!new)>(m: multiset<T>, p: T -> bool): (r: multiset<T>)
    ensures forall x :: r[x] == if p(x) then m[x] else 0
    decreases |m|
  {
    if m == multiset{} then m
    else
      var x :| x in m;
      var rest := Keep(m - multiset{x}, p);
      if p(x) then rest + multiset{x} else rest
  }

  ghost function WithoutTask(m: multiset<Entry>, id: TaskId): (r: multiset<Entry>)
    ensures forall e :: r[e] == if e.task != id then m[e] else 0
  {
    Keep(m, (e: Entry) => e.task != id)
  }

  ghost function OfTask(m: multiset<Entry>, id: TaskId): (r: multiset<Entry>)
    ensures forall e :: r[e] == if e.task == id then m[e] else 0
  {
    Keep(m, (e: Entry) => e.task == id)
  }

  ghost function OfTrigger(m: multiset<Entry>, id: TriggerId): (r: multiset<Entry>)
    ensures forall e :: r[e] == if e.trigger == id then m[e] else 0
  {
    Keep(m, (e: Entry) => e.trigger == id)
  }

  /** `next` gives the earliest time of every trigger that has an entry, and lists no other trigger. */
  ghost predicate Earliest(next: map<(TaskId, TriggerId), int>, m: multiset<Entry>) {
    && (forall e | e in m :: (e.task, e.trigger) in next && next[(e.task, e.trigger)] <= e.at)
    && (forall key | key in next :: Entry(key.0, key.1, next[key]) in m)
  }

  lemma EarliestOfOneMore(m: multiset<Entry>, e: Entry, next: map<(TaskId, TriggerId), int>)
    requires Earliest(next, m)
    ensures var key := (e.task, e.trigger);
            Earliest(if key in next && next[key] <= e.at then next else next[key := e.at], m + multiset{e})
  {
    var key := (e.task, e.trigger);
    var more := if key in next && next[key] <= e.at then next else next[key := e.at];
    forall k | k in more ensures Entry(k.0, k.1, more[k]) in m + multiset{e} {
      if k == key && !(key in next && next[key] <= e.at) {
        assert Entry(k.0, k.1, more[k]) == e;
      }
    }
  }

  // ---------- lazy deletion ----------

  type Generations = map<TaskId, nat>

  function Generation(generations: Generations, id: TaskId): nat {
    if id in generations then generations[id] else 1
  }

  predicate IsCurrent(item: ScheduledItem, generations: Generations) {
    Generation(generations, item.task) == item.generation
  }

  function Current(e: Entry, generations: Generations): ScheduledItem {
    ScheduledItem(e.task, e.trigger, e.at, Generation(generations, e.task))
  }

  /** The entries that have not been deleted: those whose item carries its task's current generation. */
  ghost function Live(heap: multiset<ScheduledItem>, generations: Generations): (r: multiset<Entry>)
    ensures forall e :: r[e] == heap[Current(e, generations)]
    decreases |heap|
  {
    if heap == multiset{} then multiset{}
    else
      var x :| x in heap;
      var rest := Live(heap - multiset{x}, generations);
      if IsCurrent(x, generations) then rest + multiset{EntryOf(x)} else rest
  }

  class ScheduleQueue {
    var heap: multiset<ScheduledItem>
    var generations: Generations

    /** No item is from a generation still to come, so a deleted entry never comes back. */
    ghost predicate Valid()
      reads this
    {
      forall item | item in heap :: item.generation <= Generation(generations, item.task)
    }

    ghost function Contents(): multiset<Entry>
      reads this
    {
      Live(heap, generations)
    }

    constructor ()
      ensures Valid() && Contents() == multiset{} && heap == multiset{} && generations == map[]
    {
      heap, generations := multiset{}, map[];
    }

    method Push(item: ScheduledItem)
      requires Valid()
      modifies this
      ensures Valid()
      ensures Contents() == if old(IsCurrent(item, generations)) then old(Contents()) + multiset{EntryOf(item)}
          else old(Contents())
      ensures heap == if old(IsCurrent(item, generations)) then old(heap) + multiset{item} else old(heap)
      ensures forall id :: Generation(generations, id) == old(Generation(generations, id))
    {
      hide Live;
      ghost var was := generations;
      if item.task !in generations {
        generations := generations[item.task := 1];
      }
      LiveDependsOnGeneration(heap, was, generations);
      LiveOfOneMore(heap, item, generations);
      if item.generation == generations[item.task] {
        heap := heap + multiset{item};
      }
    }

    /** The heap's maximum. */
    method Top() returns (top: ScheduledItem)
      requires heap != multiset{}
      ensures IsTop(top, heap)
    {
      ghost var first := TopExists(heap);
      top :| top in heap && forall o | o in heap :: o == top || Outranks(top, o);
    }

    method Pop() returns (r: Option<ScheduledItem>)
      requires Valid()
      modifies this`heap
      ensures Valid() && heap <= old(heap)
      ensures r.None? <==> old(Contents()) == multiset{}
      ensures r.None? ==> Contents() == multiset{}
      ensures r.Some? ==>
                && IsCurrent(r.value, generations)
                && IsFirst(EntryOf(r.value), old(Contents()))
                && Contents() == old(Contents()) - multiset{EntryOf(r.value)}
    {
      hide Live, IsTop, IsFirst;
      while heap != multiset{}
        invariant Valid() && heap <= old(heap) && Contents() == old(Contents())
        decreases |heap|
      {
        var item := Top();
        PoppingTheTop(item, heap, generations);
        heap := heap - multiset{item};
        if IsCurrent(item, generations) {
          return Some(item);
        }
      }
      return None;
    }

    method PeekValid() returns (r: Option<ScheduledItem>)
      requires Valid()
      modifies this`heap
      ensures Valid() && heap <= old(heap) && Contents() == old(Contents())
      ensures r.None? <==> Contents() == multiset{}
      ensures r.Some? ==> IsCurrent(r.value, generations) && IsFirst(EntryOf(r.value), Contents())
    {
      hide Live, IsTop, IsFirst, Outranks, Before;
      ghost var was := Live(heap, generations);
      while heap != multiset{}
        invariant Valid() && heap <= old(heap) && Live(heap, generations) == was
        decreases |heap|
      {
        var top := Top();
        PoppingTheTop(top, heap, generations);
        if IsCurrent(top, generations) {
          return Some(top);
        }
        heap := heap - multiset{top};
      }
      return None;
    }

    method BumpGeneration(id: TaskId) returns (generation: nat)
      requires Valid()
      modifies this`generations
      ensures Valid()
      ensures generation == old(Generation(generations, id)) + 1 == Generation(generations, id)
      ensures forall other | other != id :: Generation(generations, other) == old(Generation(generations, other))
      ensures Contents() == WithoutTask(old(Contents()), id)
      ensures forall item | item in heap && item.task == id :: !IsCurrent(item, generations)
    {
      hide Live, WithoutTask;
      if id !in generations {
        generations := generations[id := 1];
      }
      generations := generations[id := generations[id] + 1];
      assert forall e: Entry | e.task == id :: Current(e, generations) !in heap;
      return generations[id];
    }

    /** The task's live entries are its items that carry this generation, and no item is ahead of it. */
    method CurrentGeneration(id: TaskId) returns (generation: nat)
      ensures generation == Generation(generations, id)
      ensures forall e: Entry | e.task == id :: Contents()[e] == heap[ScheduledItem(id, e.trigger, e.at, generation)]
      ensures Valid() ==> forall item | item in heap && item.task == id :: item.generation <= generation
    {
      hide Live;
      return if id in generations then generations[id] else 1;
    }

    method Clear()
      modifies this`heap
      ensures Valid() && heap == multiset{} && Contents() == multiset{}
    {
      heap := multiset{};
    }

    /** For every trigger with an entry, the time of its earliest one. */
    method NextFireByTrigger() returns (next: map<(TaskId, TriggerId), int>)
      ensures Earliest(next, Contents())
    {
      hide Live, Earliest;
      next := map[];
      var todo := heap;
      assert heap - todo == multiset{};
      NothingIsEarliest(generations);
      while todo != multiset{}
        invariant todo <= heap
        invariant Earliest(next, Live(heap - todo, generations))
        decreases |todo|
      {
        var item :| item in todo;
        ghost var seen := heap - todo;
        todo := todo - multiset{item};
        assert heap - todo == seen + multiset{item};
        LiveOfOneMore(seen, item, generations);
        ghost var was := next;
        if IsCurrent(item, generations) {
          var key := (item.task, item.trigger);
          if key in next {
            if item.at < next[key] { next := next[key := item.at]; }
          } else {
            next := next[key := item.at];
          }
          EarliestOfOneMore(Live(seen, generations), EntryOf(item), was);
        }
      }
      assert heap - todo == heap;
    }

    /** Removes all items of the task, stale ones included, and hands them over. */
    method TakeTaskItems(id: TaskId) returns (taken: seq<ScheduledItem>)
      requires Valid()
      modifies this`heap
      ensures Valid()
      ensures forall item :: multiset(taken)[item] == if item.task == id then old(heap)[item] else 0
      ensures forall item :: heap[item] == if item.task == id then 0 else old(heap)[item]
      ensures Contents() == WithoutTask(old(Contents()), id)
    {
      hide Live;
      var todo := heap;
      var kept: multiset<ScheduledItem> := multiset{};
      taken := [];
      while todo != multiset{}
        invariant todo <= heap == old(heap)
        invariant forall item :: multiset(taken)[item] == if item.task == id then heap[item] - todo[item] else 0
        invariant forall item :: kept[item] == if item.task == id then 0 else heap[item] - todo[item]
        decreases |todo|
      {
        var item :| item in todo;
        todo := todo - multiset{item};
        if item.task == id { taken := taken + [item]; } else { kept := kept + multiset{item}; }
      }
      heap := kept;
      LiveWithoutTask(old(heap), heap, generations, id);
    }
  }

  /** A stale top may be dropped; a current one is the first entry. */
  lemma PoppingTheTop(top: ScheduledItem, heap: multiset<ScheduledItem>, generations: Generations)
    requires IsTop(top, heap)
    ensures if IsCurrent(top, generations)
            then IsFirst(EntryOf(top), Live(heap, generations)) && Live(heap, generations) != multiset{}
                 && Live(heap - multiset{top}, generations) == Live(heap, generations) - multiset{EntryOf(top)}
            else Live(heap - multiset{top}, generations) == Live(heap, generations)
  {
    hide Live;
    LiveOfOneLess(heap, top, generations);
    if IsCurrent(top, generations) {
      assert Current(EntryOf(top), generations) == top;
      forall e | e in Live(heap, generations) ensures e == EntryOf(top) || Before(EntryOf(top), e) {
        assert Current(e, generations) in heap;
      }
    }
  }

  lemma LiveWithoutTask(heap: multiset<ScheduledItem>, kept: multiset<ScheduledItem>, generations: Generations,
      id: TaskId)
    requires forall item :: kept[item] == if item.task == id then 0 else heap[item]
    ensures Live(kept, generations) == WithoutTask(Live(heap, generations), id)
  {
    hide Live, WithoutTask;
  }

  lemma NothingIsEarliest(generations: Generations)
    ensures Earliest(map[], Live(multiset{}, generations))
  { }

  lemma LiveDependsOnGeneration(heap: multiset<ScheduledItem>, g: Generations, h: Generations)
    requires forall id :: Generation(g, id) == Generation(h, id)
    ensures Live(heap, g) == Live(heap, h)
  {
    hide Live;
    assert forall e :: Current(e, g) == Current(e, h);
  }

  lemma LiveOfOneLess(heap: multiset<ScheduledItem>, item: ScheduledItem, generations: Generations)
    requires item in heap
    ensures Live(heap - multiset{item}, generations)
         == if IsCurrent(item, generations) then Live(heap, generations) - multiset{EntryOf(item)}
             else Live(heap, generations)
  {
    LiveOfOneMore(heap - multiset{item}, item, generations);
    assert heap - multiset{item} + multiset{item} == heap;
  }

  lemma LiveOfOneMore(heap: multiset<ScheduledItem>, item: ScheduledItem, generations: Generations)
    ensures Live(heap + multiset{item}, generations)
         == if IsCurrent(item, generations) then Live(heap, generations) + multiset{EntryOf(item)}
             else Live(heap, generations)
  {
    hide Live;
    assert forall e :: Current(e, generations) == item <==> IsCurrent(item, generations) && e == EntryOf(item);
  }
}

/** The allocation watcher: three nested loops over allocations, their task states (a Go map,
    visited in any order) and each task's events, with a time as cursor. */
module Allocations {
  import opened Checkpoint

  datatype TaskEvent = TaskEvent(time: Int64, detail: string)

  datatype TaskInfo = TaskInfo(state: string, events: seq<TaskEvent>)

  /** `status` stands for the allocation's other fields that an update repeats. */
  datatype Allocation = Allocation(id: string, status: string, tasks: map<string, TaskInfo>)

  /** The payload: ids and statuses as the list showed them, and the event. */
  datatype Update = Update(alloc: string, status: string, task: string, state: string, event: TaskEvent)

  datatype Reply = ListError | Listing(lastIndex: nat, allocs: seq<Allocation>)

  /** WaitIndex starts at 1, not at the restored value. */
  const FIRST_WAIT_INDEX: nat := 1

  // ---- what one scan publishes ----

  /** How often the update occurs in `tasks` of allocation `a` above the cursor. */
  ghost function InTasks(a: Allocation, tasks: set<string>, cursor: Int64, u: Update): nat {
    if u.task in tasks && u.task in a.tasks then InEvents(a, u.task, a.tasks[u.task].events, cursor, u) else 0
  }

  /** How often the update occurs in `events`, taken to be events of that task. */
  ghost function InEvents(a: Allocation, task: string, events: seq<TaskEvent>, cursor: Int64, u: Update): nat
    requires task in a.tasks
  {
    if u == Update(a.id, a.status, task, a.tasks[task].state, u.event) && u.event.time > cursor
    then multiset(events)[u.event] else 0
  }

  /** How often a scan must publish the update: once for every occurrence of its event in the
      task of a listed allocation, if its time is above the cursor. */
  ghost function Wanted(allocs: seq<Allocation>, cursor: Int64, u: Update): nat {
    if allocs == [] then 0 else
    var last := allocs[|allocs| - 1];
    Wanted(allocs[..|allocs| - 1], cursor, u) + InTasks(last, last.tasks.Keys, cursor, u)
  }

  /** The updates for these events of a task, in order. */
  function EventsAbove(a: Allocation, task: string, events: seq<TaskEvent>, cursor: Int64): seq<Update>
    requires task in a.tasks
  {
    if events == [] then [] else
    var before := EventsAbove(a, task, events[..|events| - 1], cursor);
    var last := events[|events| - 1];
    if last.time > cursor then before + [Payload(a, task, last)] else before
  }

  /** Those of several tasks, in the order in which the map was visited. */
  function TasksAbove(a: Allocation, order: seq<string>, cursor: Int64): seq<Update>
    requires forall k :: 0 <= k < |order| ==> order[k] in a.tasks
  {
    if order == [] then [] else
    var task := order[|order| - 1];
    TasksAbove(a, order[..|order| - 1], cursor) + EventsAbove(a, task, a.tasks[task].events, cursor)
  }

  /** Every task of the allocation, once, in some order. */
  ghost predicate Visits(order: seq<string>, tasks: set<string>) {
    && (forall k :: 0 <= k < |order| ==> order[k] in tasks)
    && (forall t :: t in tasks ==> t in order)
    && (forall a, b :: 0 <= a < b < |order| ==> order[a] != order[b])
  }

  ghost predicate VisitsAll(orders: seq<seq<string>>, allocs: seq<Allocation>) {
    |orders| == |allocs| && forall i :: 0 <= i < |allocs| ==> Visits(orders[i], allocs[i].tasks.Keys)
  }

  /** Those of a list, allocation by allocation. */
  ghost function ListAbove(allocs: seq<Allocation>, orders: seq<seq<string>>, cursor: Int64): seq<Update>
    requires VisitsAll(orders, allocs)
  {
    if allocs == [] then [] else
    var n := |allocs| - 1;
    ListAbove(allocs[..n], orders[..n], cursor) + TasksAbove(allocs[n], orders[n], cursor)
  }

  ghost predicate Exactly(out: seq<Update>, allocs: seq<Allocation>, cursor: Int64) {
    forall u :: multiset(out)[u] == Wanted(allocs, cursor, u)
  }

  ghost predicate TimeInEvents(events: seq<TaskEvent>, x: int) {
    exists k :: 0 <= k < |events| && events[k].time == x
  }

  ghost predicate TimeInTasks(a: Allocation, tasks: set<string>, x: int) {
    exists t :: t in tasks && t in a.tasks && TimeInEvents(a.tasks[t].events, x)
  }

  ghost predicate TimeIn(allocs: seq<Allocation>, x: int) {
    exists i :: 0 <= i < |allocs| && TimeInTasks(allocs[i], allocs[i].tasks.Keys, x)
  }

  /** `m` is the maximum of the cursor and every event time listed. */
  ghost predicate IsMax(allocs: seq<Allocation>, cursor: Int64, m: Int64) {
    && cursor <= m
    && (forall x :: TimeIn(allocs, x) ==> x <= m)
    && (m == cursor || TimeIn(allocs, m))
  }

  /** q.WaitIndex after these answers: the LastIndex of the last list received, since a skipped
      list has the LastIndex waited for. */
  function Waiting(replies: seq<Reply>): nat {
    if replies == [] then FIRST_WAIT_INDEX else
    match replies[|replies| - 1]
    case ListError => Waiting(replies[..|replies| - 1])
    case Listing(lastIndex, _) => lastIndex
  }

  /** What one more answer does: a list with a new LastIndex is scanned, anything else ignored. */
  ghost predicate Handled(replies: seq<Reply>, r: Reply, out: seq<Update>, cursor: Int64, newCursor: Int64) {
    if r.Listing? && r.lastIndex != Waiting(replies) then OneScan(out, r.allocs, cursor, newCursor)
    else out == [] && newCursor == cursor
  }

  function Concat(outs: seq<seq<Update>>): seq<Update> {
    if outs == [] then [] else Concat(outs[..|outs| - 1]) + outs[|outs| - 1]
  }

  /** Answer k finds the cursor at cursors[k], makes the loop publish exactly outs[k], and
      leaves the cursor at cursors[k + 1]. */
  ghost predicate Ran(restored: Int64, replies: seq<Reply>, outs: seq<seq<Update>>, cursors: seq<Int64>) {
    && |outs| == |replies| && |cursors| == |replies| + 1 && cursors[0] == restored
    && forall k :: 0 <= k < |replies| ==>
         Handled(replies[..k], replies[k], outs[k], cursors[k], cursors[k + 1])
  }

  ghost predicate OneScan(out: seq<Update>, allocs: seq<Allocation>, cursor: Int64, newCursor: Int64) {
    Exactly(out, allocs, cursor) && IsMax(allocs, cursor, newCursor)
  }

  lemma Regroup<T>(a: seq<T>, b: seq<T>, c: seq<T>)
    ensures a + (b + c) == (a + b) + c
  {
  }

  lemma RanNext(restored: Int64, replies: seq<Reply>, outs: seq<seq<Update>>, cursors: seq<Int64>,
                r: Reply, out: seq<Update>, cursor: Int64)
    requires Ran(restored, replies, outs, cursors)
    requires Handled(replies, r, out, cursors[|replies|], cursor)
    ensures Ran(restored, replies + [r], outs + [out], cursors + [cursor])
  {
    var rs, os, cs := replies + [r], outs + [out], cursors + [cursor];
    forall k | 0 <= k < |rs| ensures Handled(rs[..k], rs[k], os[k], cs[k], cs[k + 1]) {
      assert rs[..k] == replies[..k];
      if k < |replies| {
        assert Handled(replies[..k], replies[k], outs[k], cursors[k], cursors[k + 1]);
      } else {
        assert replies[..k] == replies;
      }
    }
  }

  lemma ConcatNext(outs: seq<seq<Update>>, out: seq<Update>)
    ensures Concat(outs + [out]) == Concat(outs) + out
  {
    assert (outs + [out])[..|outs|] == outs;
  }

  // ---- the loops ----

  /** The update made of an event. */
  function Payload(a: Allocation, task: string, event: TaskEvent): Update
    requires task in a.tasks
  {
    Update(a.id, a.status, task, a.tasks[task].state, event)
  }

  lemma {:induction false} CountEvents(a: Allocation, task: string, events: seq<TaskEvent>, cursor: Int64, u: Update)
    requires task in a.tasks
    ensures multiset(EventsAbove(a, task, events, cursor))[u] == InEvents(a, task, events, cursor, u)
  {
    if events != [] {
      var init, last := events[..|events| - 1], events[|events| - 1];
      CountEvents(a, task, init, cursor, u);
      assert events == init + [last];
    }
  }

  lemma SumCounts(s: seq<Update>, t: seq<Update>, u: Update)
    ensures multiset(s + t)[u] == multiset(s)[u] + multiset(t)[u]
  {
  }

  lemma EventsCounted(base: seq<Update>, a: Allocation, task: string, cursor: Int64)
    requires task in a.tasks
    ensures var all := base + EventsAbove(a, task, a.tasks[task].events, cursor);
            forall u :: multiset(all)[u] == multiset(base)[u] + InEvents(a, task, a.tasks[task].events, cursor, u)
  {
    var all := base + EventsAbove(a, task, a.tasks[task].events, cursor);
    forall u ensures multiset(all)[u] == multiset(base)[u] + InEvents(a, task, a.tasks[task].events, cursor, u) {
      CountEvents(a, task, a.tasks[task].events, cursor, u);
      SumCounts(base, EventsAbove(a, task, a.tasks[task].events, cursor), u);
    }
  }

  lemma OneMoreTask(a: Allocation, done: set<string>, task: string, cursor: Int64, u: Update)
    requires task in a.tasks && task !in done
    ensures InTasks(a, done + {task}, cursor, u) ==
            InTasks(a, done, cursor, u) + InEvents(a, task, a.tasks[task].events, cursor, u)
  {
  }

  lemma {:induction false} CountTasks(a: Allocation, order: seq<string>, done: set<string>, cursor: Int64, u: Update)
    requires Visits(order, done) && done <= a.tasks.Keys
    ensures multiset(TasksAbove(a, order, cursor))[u] == InTasks(a, done, cursor, u)
  {
    if order != [] {
      var n := |order| - 1;
      var init, task := order[..n], order[n];
      VisitsInit(order, done);
      CountTasks(a, init, done - {task}, cursor, u);
      CountEvents(a, task, a.tasks[task].events, cursor, u);
      SumCounts(TasksAbove(a, init, cursor), EventsAbove(a, task, a.tasks[task].events, cursor), u);
      OneMoreTask(a, done - {task}, task, cursor, u);
      assert done - {task} + {task} == done;
    }
  }

  lemma VisitsInit(order: seq<string>, done: set<string>)
    requires Visits(order, done) && order != []
    ensures order[|order| - 1] in done && Visits(order[..|order| - 1], done - {order[|order| - 1]})
  {
    var n := |order| - 1;
    forall t | t in done - {order[n]} ensures t in order[..n] {
      var k :| 0 <= k < |order| && order[k] == t;
      assert order[..n][k] == t;
    }
  }

  lemma TasksCounted(base: seq<Update>, a: Allocation, order: seq<string>, cursor: Int64)
    requires Visits(order, a.tasks.Keys)
    ensures var all := base + TasksAbove(a, order, cursor);
            forall u :: multiset(all)[u] == multiset(base)[u] + InTasks(a, a.tasks.Keys, cursor, u)
  {
    var all := base + TasksAbove(a, order, cursor);
    forall u ensures multiset(all)[u] == multiset(base)[u] + InTasks(a, a.tasks.Keys, cursor, u) {
      CountTasks(a, order, a.tasks.Keys, cursor, u);
      SumCounts(base, TasksAbove(a, order, cursor), u);
    }
  }

  lemma {:induction false} CountList(allocs: seq<Allocation>, orders: seq<seq<string>>, cursor: Int64, u: Update)
    requires VisitsAll(orders, allocs)
    ensures multiset(ListAbove(allocs, orders, cursor))[u] == Wanted(allocs, cursor, u)
  {
    if allocs != [] {
      var n := |allocs| - 1;
      CountList(allocs[..n], orders[..n], cursor, u);
      CountTasks(allocs[n], orders[n], allocs[n].tasks.Keys, cursor, u);
      SumCounts(ListAbove(allocs[..n], orders[..n], cursor), TasksAbove(allocs[n], orders[n], cursor), u);
    }
  }

  lemma ListCounted(allocs: seq<Allocation>, orders: seq<seq<string>>, cursor: Int64)
    requires VisitsAll(orders, allocs)
    ensures Exactly(ListAbove(allocs, orders, cursor), allocs, cursor)
  {
    forall u ensures multiset(ListAbove(allocs, orders, cursor))[u] == Wanted(allocs, cursor, u) {
      CountList(allocs, orders, cursor, u);
    }
  }

  lemma OneMoreTime(allocs: seq<Allocation>, i: nat, x: int)
    requires i < |allocs|
    ensures TimeIn(allocs[..i + 1], x) <==> TimeIn(allocs[..i], x) || TimeInTasks(allocs[i], allocs[i].tasks.Keys, x)
  {
    var longer, shorter := allocs[..i + 1], allocs[..i];
    if TimeIn(shorter, x) {
      var j :| 0 <= j < |shorter| && TimeInTasks(shorter[j], shorter[j].tasks.Keys, x);
      assert longer[j] == shorter[j];
    }
    if TimeInTasks(allocs[i], allocs[i].tasks.Keys, x) {
      assert longer[i] == allocs[i];
    }
    if TimeIn(longer, x) {
      var j :| 0 <= j < |longer| && TimeInTasks(longer[j], longer[j].tasks.Keys, x);
      assert j < i ==> longer[j] == shorter[j];
    }
  }

  lemma MaxNext(allocs: seq<Allocation>, i: nat, cursor: Int64, max: Int64, newMax: Int64)
    requires i < |allocs| && IsMax(allocs[..i], cursor, max) && max <= newMax
    requires forall x :: TimeInTasks(allocs[i], allocs[i].tasks.Keys, x) ==> x <= newMax
    requires newMax == max || TimeInTasks(allocs[i], allocs[i].tasks.Keys, newMax)
    ensures IsMax(allocs[..i + 1], cursor, newMax)
  {
    var longer := allocs[..i + 1];
    forall x | TimeIn(longer, x) ensures x <= newMax {
      OneMoreTime(allocs, i, x);
    }
    OneMoreTime(allocs, i, newMax);
  }

  lemma TimesNext(a: Allocation, done: set<string>, task: string, m: int)
    requires task in a.tasks
    requires forall x :: TimeInTasks(a, done, x) ==> x <= m
    requires forall x :: TimeInEvents(a.tasks[task].events, x) ==> x <= m
    ensures forall x :: TimeInTasks(a, done + {task}, x) ==> x <= m
  {
    forall x | TimeInTasks(a, done + {task}, x) ensures x <= m {
      var t :| t in done + {task} && t in a.tasks && TimeInEvents(a.tasks[t].events, x);
      if t in done {
        assert TimeInTasks(a, done, x);
      }
    }
  }

  lemma VisitsNext(order: seq<string>, done: set<string>, task: string)
    requires Visits(order, done) && task !in done
    ensures Visits(order + [task], done + {task})
    ensures (order + [task])[..|order|] == order
  {
  }

  lemma ListAboveNext(allocs: seq<Allocation>, i: nat, orders: seq<seq<string>>, order: seq<string>, cursor: Int64)
    requires i < |allocs| && VisitsAll(orders, allocs[..i]) && Visits(order, allocs[i].tasks.Keys)
    ensures VisitsAll(orders + [order], allocs[..i + 1])
    ensures ListAbove(allocs[..i + 1], orders + [order], cursor) ==
            ListAbove(allocs[..i], orders, cursor) + TasksAbove(allocs[i], order, cursor)
  {
    assert allocs[..i + 1][..i] == allocs[..i] && (orders + [order])[..i] == orders;
  }

  /** A scan has looked at these allocations. */
  ghost predicate ScannedTo(allocs: seq<Allocation>, orders: seq<seq<string>>, cursor: Int64,
                            base: seq<Update>, published: seq<Update>, max: Int64) {
    && VisitsAll(orders, allocs) && published == base + ListAbove(allocs, orders, cursor)
    && IsMax(allocs, cursor, max)
  }

  lemma ScannedNext(allocs: seq<Allocation>, i: nat, orders: seq<seq<string>>, order: seq<string>, cursor: Int64,
                    base: seq<Update>, published: seq<Update>, published': seq<Update>, max: Int64, newMax: Int64)
    requires i < |allocs| && ScannedTo(allocs[..i], orders, cursor, base, published, max) && max <= newMax
    requires Visits(order, allocs[i].tasks.Keys) && published' == published + TasksAbove(allocs[i], order, cursor)
    requires forall x :: TimeInTasks(allocs[i], allocs[i].tasks.Keys, x) ==> x <= newMax
    requires newMax == max || TimeInTasks(allocs[i], allocs[i].tasks.Keys, newMax)
    ensures ScannedTo(allocs[..i + 1], orders + [order], cursor, base, published', newMax)
  {
    ListAboveNext(allocs, i, orders, order, cursor);
    MaxNext(allocs, i, cursor, max, newMax);
    Regroup(base, ListAbove(allocs[..i], orders, cursor), TasksAbove(allocs[i], order, cursor));
  }

  lemma PrefixNext(replies: seq<Reply>, n: nat)
    requires n < |replies|
    ensures replies[..n + 1] == replies[..n] + [replies[n]]
    ensures Waiting(replies[..n + 1]) ==
            if replies[n].Listing? then replies[n].lastIndex else Waiting(replies[..n])
  {
    assert replies[..n + 1][..n] == replies[..n];
  }

  class Firehose {
    var lastChangeTime: Int64
    var published: seq<Update>

    constructor (restored: Int64)
      ensures lastChangeTime == restored && published == []
    {
      lastChangeTime := restored;
      published := [];
    }

    /** The innermost loop, over the events of one task. */
    method ScanTask(a: Allocation, task: string, max: Int64) returns (newMax: Int64)
      requires task in a.tasks && lastChangeTime <= max
      modifies this`published
      ensures forall u :: multiset(published)[u] ==
                multiset(old(published))[u] + InEvents(a, task, a.tasks[task].events, lastChangeTime, u)
      ensures published == old(published) + EventsAbove(a, task, a.tasks[task].events, lastChangeTime)
      ensures max <= newMax
      ensures forall x :: TimeInEvents(a.tasks[task].events, x) ==> x <= newMax
      ensures newMax == max || TimeInEvents(a.tasks[task].events, newMax)
    {
      newMax := max;
      var events := a.tasks[task].events;
      for k := 0 to |events|
        invariant published == old(published) + EventsAbove(a, task, events[..k], lastChangeTime)
        invariant max <= newMax
        invariant forall j :: 0 <= j < k ==> events[j].time <= newMax
        invariant newMax == max || TimeInEvents(events, newMax)
      {
        assert events[..k + 1][..k] == events[..k];
        var taskEvent := events[k];
        if taskEvent.time <= lastChangeTime {
          continue;
        }
        if taskEvent.time > newMax {
          newMax := taskEvent.time;
        }
        published := published + [Payload(a, task, taskEvent)];
      }
      assert events[..|events|] == events;
      EventsCounted(old(published), a, task, lastChangeTime);
    }

    /** The loop over the task map, whose order Go leaves open. */
    method ScanAllocation(a: Allocation, max: Int64) returns (newMax: Int64, ghost order: seq<string>)
      requires lastChangeTime <= max
      modifies this`published
      ensures forall u :: multiset(published)[u] ==
                multiset(old(published))[u] + InTasks(a, a.tasks.Keys, lastChangeTime, u)
      ensures Visits(order, a.tasks.Keys) && published == old(published) + TasksAbove(a, order, lastChangeTime)
      ensures max <= newMax
      ensures forall x :: TimeInTasks(a, a.tasks.Keys, x) ==> x <= newMax
      ensures newMax == max || TimeInTasks(a, a.tasks.Keys, newMax)
    {
      newMax, order := max, [];
      var todo := a.tasks.Keys;
      while todo != {}
        invariant todo <= a.tasks.Keys
        invariant Visits(order, a.tasks.Keys - todo)
        invariant published == old(published) + TasksAbove(a, order, lastChangeTime)
        invariant max <= newMax
        invariant forall x :: TimeInTasks(a, a.tasks.Keys - todo, x) ==> x <= newMax
        invariant newMax == max || TimeInTasks(a, a.tasks.Keys, newMax)
        decreases todo
      {
        var task :| task in todo;
        ghost var done := a.tasks.Keys - todo;
        newMax := ScanTask(a, task, newMax);
        TimesNext(a, done, task, newMax);
        VisitsNext(order, done, task);
        order := order + [task];
        todo := todo - {task};
        assert a.tasks.Keys - todo == done + {task};
      }
      assert a.tasks.Keys - todo == a.tasks.Keys;
      TasksCounted(old(published), a, order, lastChangeTime);
    }

    /** One pass over a list: publishes exactly the events above the cursor, as often as they
        are listed, and moves the cursor to the newest time, in whatever order allocations,
        tasks and events come. */
    method Scan(allocs: seq<Allocation>) returns (ghost out: seq<Update>, ghost orders: seq<seq<string>>)
      modifies this
      ensures published == old(published) + out
      ensures OneScan(out, allocs, old(lastChangeTime), lastChangeTime)
      ensures VisitsAll(orders, allocs) && out == ListAbove(allocs, orders, old(lastChangeTime))
    {
      var newMax := lastChangeTime;
      orders := [];
      for i := 0 to |allocs|
        invariant lastChangeTime == old(lastChangeTime) <= newMax
        invariant ScannedTo(allocs[..i], orders, lastChangeTime, old(published), published, newMax)
      {
        ghost var max, before := newMax, published;
        ghost var order;
        newMax, order := ScanAllocation(allocs[i], newMax);
        ScannedNext(allocs, i, orders, order, lastChangeTime, old(published), before, published, max, newMax);
        orders := orders + [order];
      }
      assert allocs[..|allocs|] == allocs;
      out := ListAbove(allocs, orders, lastChangeTime);
      ListCounted(allocs, orders, lastChangeTime);
      lastChangeTime := newMax;
    }

    /** The watch loop over any finite sequence of list answers. */
    method Watch(replies: seq<Reply>) returns (ghost outs: seq<seq<Update>>, ghost cursors: seq<Int64>)
      modifies this
      ensures Ran(old(lastChangeTime), replies, outs, cursors)
      ensures lastChangeTime == cursors[|cursors| - 1]
      ensures published == old(published) + Concat(outs)
    {
      var waitIndex := FIRST_WAIT_INDEX;
      outs, cursors := [], [lastChangeTime];
      for n := 0 to |replies|
        invariant waitIndex == Waiting(replies[..n])
        invariant Ran(old(lastChangeTime), replies[..n], outs, cursors)
        invariant lastChangeTime == cursors[|cursors| - 1]
        invariant published == old(published) + Concat(outs)
      {
        PrefixNext(replies, n);
        ghost var out := [];
        if replies[n].Listing? && replies[n].lastIndex != waitIndex {
          ghost var orders;
          out, orders := Scan(replies[n].allocs);
          waitIndex := replies[n].lastIndex;
        }
        RanNext(old(lastChangeTime), replies[..n], outs, cursors, replies[n], out, lastChangeTime);
        ConcatNext(outs, out);
        Regroup(old(published), Concat(outs), out);
        outs, cursors := outs + [out], cursors + [lastChangeTime];
      }
      assert replies[..|replies|] == replies;
    }
  }

  // ---- the order of a list does not matter ----

  /** The same allocation with the events of each task in another order. */
  ghost predicate Reordered(a: Allocation, b: Allocation) {
    && a.id == b.id && a.status == b.status && a.tasks.Keys == b.tasks.Keys
    && forall t :: t in a.tasks ==> SameEvents(a.tasks[t], b.tasks[t])
  }

  ghost predicate SameEvents(s: TaskInfo, t: TaskInfo) {
    s.state == t.state && multiset(s.events) == multiset(t.events)
  }

  ghost predicate AllReordered(allocs: seq<Allocation>, others: seq<Allocation>) {
    |allocs| == |others| && forall i :: 0 <= i < |allocs| ==> Reordered(allocs[i], others[i])
  }

  lemma ReorderedTasks(a: Allocation, b: Allocation, cursor: Int64, u: Update)
    requires Reordered(a, b)
    ensures InTasks(a, a.tasks.Keys, cursor, u) == InTasks(b, b.tasks.Keys, cursor, u)
  {
    if u.task in a.tasks {
      assert SameEvents(a.tasks[u.task], b.tasks[u.task]);
    }
  }

  lemma {:induction false} ReorderedWanted(allocs: seq<Allocation>, others: seq<Allocation>, cursor: Int64, u: Update)
    requires AllReordered(allocs, others)
    ensures Wanted(allocs, cursor, u) == Wanted(others, cursor, u)
  {
    if allocs != [] {
      var n := |allocs| - 1;
      ReorderedWanted(allocs[..n], others[..n], cursor, u);
      ReorderedTasks(allocs[n], others[n], cursor, u);
    }
  }

  function Without(allocs: seq<Allocation>, k: nat): seq<Allocation>
    requires k < |allocs|
  {
    allocs[..k] + allocs[k + 1..]
  }

  lemma WithoutInit(allocs: seq<Allocation>, k: nat)
    requires k < |allocs|
    ensures var n := |allocs| - 1;
            if k == n then Without(allocs, k) == allocs[..n]
            else Without(allocs, k) == Without(allocs[..n], k) + [allocs[n]]
  {
  }

  lemma WantedAppend(allocs: seq<Allocation>, a: Allocation, cursor: Int64, u: Update)
    ensures Wanted(allocs + [a], cursor, u) == Wanted(allocs, cursor, u) + InTasks(a, a.tasks.Keys, cursor, u)
  {
    assert (allocs + [a])[..|allocs|] == allocs;
  }

  lemma {:induction false} WantedWithout(allocs: seq<Allocation>, k: nat, cursor: Int64, u: Update)
    requires k < |allocs|
    ensures Wanted(allocs, cursor, u) ==
            Wanted(Without(allocs, k), cursor, u) + InTasks(allocs[k], allocs[k].tasks.Keys, cursor, u)
  {
    var n := |allocs| - 1;
    WithoutInit(allocs, k);
    if k < n {
      WantedWithout(allocs[..n], k, cursor, u);
      WantedAppend(Without(allocs[..n], k), allocs[n], cursor, u);
    }
  }

  lemma WithoutOne(allocs: seq<Allocation>, k: nat)
    requires k < |allocs|
    ensures multiset(Without(allocs, k)) == multiset(allocs) - multiset{allocs[k]}
  {
    assert allocs == allocs[..k] + [allocs[k]] + allocs[k + 1..];
  }

  lemma SameCount(allocs: seq<Allocation>, shuffled: seq<Allocation>)
    requires multiset(allocs) == multiset(shuffled)
    ensures |allocs| == |shuffled|
  {
    assert |multiset(allocs)| == |allocs| && |multiset(shuffled)| == |shuffled|;
  }

  lemma {:induction false} ShuffledWanted(allocs: seq<Allocation>, shuffled: seq<Allocation>, cursor: Int64, u: Update)
    requires multiset(allocs) == multiset(shuffled)
    ensures Wanted(allocs, cursor, u) == Wanted(shuffled, cursor, u)
    decreases |allocs|
  {
    SameCount(allocs, shuffled);
    if allocs != [] {
      var n := |allocs| - 1;
      assert allocs[n] in multiset(shuffled);
      var k :| 0 <= k < |shuffled| && shuffled[k] == allocs[n];
      WithoutOne(allocs, n);
      WithoutOne(shuffled, k);
      ShuffledWanted(Without(allocs, n), Without(shuffled, k), cursor, u);
      WantedWithout(allocs, n, cursor, u);
      WantedWithout(shuffled, k, cursor, u);
    }
  }

  lemma ReorderedTime(a: Allocation, b: Allocation, x: int)
    requires Reordered(a, b) && TimeInTasks(a, a.tasks.Keys, x)
    ensures TimeInTasks(b, b.tasks.Keys, x)
  {
    var t :| t in a.tasks && TimeInEvents(a.tasks[t].events, x);
    assert SameEvents(a.tasks[t], b.tasks[t]);
    var k :| 0 <= k < |a.tasks[t].events| && a.tasks[t].events[k].time == x;
    assert a.tasks[t].events[k] in multiset(b.tasks[t].events);
    var j :| 0 <= j < |b.tasks[t].events| && b.tasks[t].events[j] == a.tasks[t].events[k];
    assert TimeInEvents(b.tasks[t].events, x);
  }

  lemma SameTimes(allocs: seq<Allocation>, mid: seq<Allocation>, shuffled: seq<Allocation>, x: int)
    requires AllReordered(allocs, mid) && multiset(mid) == multiset(shuffled) && TimeIn(allocs, x)
    ensures TimeIn(shuffled, x)
  {
    var i :| 0 <= i < |allocs| && TimeInTasks(allocs[i], allocs[i].tasks.Keys, x);
    ReorderedTime(allocs[i], mid[i], x);
    assert mid[i] in multiset(shuffled);
    var j :| 0 <= j < |shuffled| && shuffled[j] == mid[i];
  }

  lemma SameTimesBack(allocs: seq<Allocation>, mid: seq<Allocation>, shuffled: seq<Allocation>, x: int)
    requires AllReordered(allocs, mid) && multiset(mid) == multiset(shuffled) && TimeIn(shuffled, x)
    ensures TimeIn(allocs, x)
  {
    var j :| 0 <= j < |shuffled| && TimeInTasks(shuffled[j], shuffled[j].tasks.Keys, x);
    assert shuffled[j] in multiset(mid);
    var i :| 0 <= i < |mid| && mid[i] == shuffled[j];
    assert Reordered(allocs[i], mid[i]);
    assert forall t :: t in allocs[i].tasks ==> SameEvents(allocs[i].tasks[t], mid[i].tasks[t]);
    ReorderedTime(mid[i], allocs[i], x);
  }

  /** Two scans of the same allocations, listed in any order and with the events of every task
      in any order (`mid` reorders events only, `shuffled` then allocations only), publish the
      same updates equally often and leave the same cursor. */
  lemma {:induction false} OrderIsIrrelevant(allocs: seq<Allocation>, mid: seq<Allocation>, shuffled: seq<Allocation>,
                                             cursor: Int64, out: seq<Update>, out': seq<Update>, m: Int64, m': Int64)
    requires AllReordered(allocs, mid) && multiset(mid) == multiset(shuffled)
    requires OneScan(out, allocs, cursor, m) && OneScan(out', shuffled, cursor, m')
    ensures multiset(out) == multiset(out') && m == m'
  {
    forall u ensures multiset(out)[u] == multiset(out')[u] {
      ReorderedWanted(allocs, mid, cursor, u);
      ShuffledWanted(mid, shuffled, cursor, u);
    }
    forall x ensures TimeIn(allocs, x) <==> TimeIn(shuffled, x) {
      if TimeIn(allocs, x) { SameTimes(allocs, mid, shuffled, x); }
      if TimeIn(shuffled, x) { SameTimesBack(allocs, mid, shuffled, x); }
    }
  }

  // ---- which events a whole run publishes ----

  /** An event of a task, whatever else is known of the allocation when it is seen. */
  datatype Happening = Happening(alloc: string, task: string, event: TaskEvent)

  function Of(u: Update): Happening {
    Happening(u.alloc, u.task, u.event)
  }

  /** The list shows the event. */
  ghost predicate Shows(allocs: seq<Allocation>, h: Happening) {
    exists i :: 0 <= i < |allocs| && ShownBy(allocs[i], h)
  }

  ghost predicate ShownBy(a: Allocation, h: Happening) {
    a.id == h.alloc && h.task in a.tasks && h.event in a.tasks[h.task].events
  }

  ghost predicate Publishes(out: seq<Update>, h: Happening) {
    exists j :: 0 <= j < |out| && Of(out[j]) == h
  }

  /** A wanted update is made from some allocation of the list. */
  lemma {:induction false} WantedFrom(allocs: seq<Allocation>, cursor: Int64, u: Update) returns (i: nat)
    requires Wanted(allocs, cursor, u) > 0
    ensures i < |allocs| && InTasks(allocs[i], allocs[i].tasks.Keys, cursor, u) > 0
  {
    i := |allocs| - 1;
    if InTasks(allocs[i], allocs[i].tasks.Keys, cursor, u) == 0 {
      i := WantedFrom(allocs[..i], cursor, u);
    }
  }

  lemma InOut(out: seq<Update>, allocs: seq<Allocation>, cursor: Int64, j: nat) returns (i: nat)
    requires Exactly(out, allocs, cursor) && j < |out|
    ensures i < |allocs| && InTasks(allocs[i], allocs[i].tasks.Keys, cursor, out[j]) > 0
  {
    assert out[j] in multiset(out);
    i := WantedFrom(allocs, cursor, out[j]);
  }

  lemma PublishedByScan(out: seq<Update>, allocs: seq<Allocation>, cursor: Int64, h: Happening)
    requires Exactly(out, allocs, cursor)
    ensures Publishes(out, h) <==> Shows(allocs, h) && h.event.time > cursor
  {
    if Publishes(out, h) {
      var j :| 0 <= j < |out| && Of(out[j]) == h;
      var i := InOut(out, allocs, cursor, j);
      assert ShownBy(allocs[i], h);
    }
    if Shows(allocs, h) && h.event.time > cursor {
      var i :| 0 <= i < |allocs| && ShownBy(allocs[i], h);
      var u := Payload(allocs[i], h.task, h.event);
      WantedWithout(allocs, i, cursor, u);
      assert multiset(out)[u] > 0;
      assert u in out;
      assert Of(u) == h;
    }
  }

  // ---- skipped answers ----

  /** One LastIndex always has one content, as far as events go, and none at index 1. */
  ghost predicate Consistent(replies: seq<Reply>) {
    && (forall a, b ::
         0 <= a < b < |replies| && replies[a].Listing? && replies[b].Listing? ==>
           replies[a].lastIndex == replies[b].lastIndex ==> SameContent(replies[a].allocs, replies[b].allocs))
    && (forall a :: 0 <= a < |replies| && replies[a].Listing? && replies[a].lastIndex == 1 ==>
         SameContent(replies[a].allocs, []))
  }

  ghost predicate SameContent(allocs: seq<Allocation>, others: seq<Allocation>) {
    forall h :: Shows(allocs, h) <==> Shows(others, h)
  }

  lemma TimeShown(allocs: seq<Allocation>, x: int) returns (h: Happening)
    requires TimeIn(allocs, x)
    ensures Shows(allocs, h) && h.event.time == x
  {
    var i :| 0 <= i < |allocs| && TimeInTasks(allocs[i], allocs[i].tasks.Keys, x);
    var t :| t in allocs[i].tasks && TimeInEvents(allocs[i].tasks[t].events, x);
    var k :| 0 <= k < |allocs[i].tasks[t].events| && allocs[i].tasks[t].events[k].time == x;
    h := Happening(allocs[i].id, t, allocs[i].tasks[t].events[k]);
    assert ShownBy(allocs[i], h);
  }

  /** Every event time in the lists among the first k answers, scanned or skipped, is below x. */
  ghost predicate AllOlder(replies: seq<Reply>, k: nat, x: int)
    requires k <= |replies|
  {
    forall j, y :: 0 <= j < k && replies[j].Listing? && TimeIn(replies[j].allocs, y) ==> y < x
  }

  /** The wait index is the LastIndex of some earlier list, or 1. */
  lemma {:induction false} WaitFrom(replies: seq<Reply>) returns (j: nat)
    ensures j < |replies| ==> replies[j].Listing? && replies[j].lastIndex == Waiting(replies)
    ensures j >= |replies| ==> Waiting(replies) == 1
  {
    if replies == [] {
      j := 0;
    } else {
      j := |replies| - 1;
      if replies[j].ListError? {
        j := WaitFrom(replies[..j]);
        if j >= |replies| - 1 { j := |replies|; }
      }
    }
  }

  lemma NotEmpty(allocs: seq<Allocation>, h: Happening)
    requires Shows(allocs, h)
    ensures !SameContent(allocs, [])
  {
    assert !Shows([], h);
  }

  /** A skipped list shows no time that an earlier list did not show. */
  lemma SkippedTime(replies: seq<Reply>, k: nat, y: int) returns (j: nat)
    requires Consistent(replies) && k < |replies| && replies[k].Listing?
    requires replies[k].lastIndex == Waiting(replies[..k]) && TimeIn(replies[k].allocs, y)
    ensures j < k && replies[j].Listing? && TimeIn(replies[j].allocs, y)
  {
    var h := TimeShown(replies[k].allocs, y);
    NotEmpty(replies[k].allocs, h);
    j := WaitFrom(replies[..k]);
    if j < k {
      assert SameContent(replies[j].allocs, replies[k].allocs);
      ShownTime(replies[j].allocs, h);
    }
  }

  lemma AllOlderNext(replies: seq<Reply>, k: nat, x: int)
    requires k < |replies|
    ensures AllOlder(replies, k + 1, x) <==>
            && AllOlder(replies, k, x)
            && (replies[k].Listing? ==> forall y :: TimeIn(replies[k].allocs, y) ==> y < x)
  {
  }

  lemma SkippedIsOlder(replies: seq<Reply>, k: nat, x: int)
    requires Consistent(replies) && k < |replies| && replies[k].Listing?
    requires replies[k].lastIndex == Waiting(replies[..k]) && AllOlder(replies, k, x)
    ensures forall y :: TimeIn(replies[k].allocs, y) ==> y < x
  {
    forall y | TimeIn(replies[k].allocs, y) ensures y < x {
      var j := SkippedTime(replies, k, y);
    }
  }

  /** The cursor is the maximum of the restored value and every time in every list received,
      although some lists were skipped. */
  lemma {:induction false} CursorIsNewest(restored: Int64, replies: seq<Reply>, outs: seq<seq<Update>>,
                                          cursors: seq<Int64>, k: nat, x: int)
    requires Ran(restored, replies, outs, cursors) && Consistent(replies) && k <= |replies|
    ensures cursors[k] < x <==> restored < x && AllOlder(replies, k, x)
  {
    if k > 0 {
      var j := k - 1;
      CursorIsNewest(restored, replies, outs, cursors, j, x);
      assert Handled(replies[..j], replies[j], outs[j], cursors[j], cursors[k]);
      AllOlderNext(replies, j, x);
      if replies[j].Listing? && replies[j].lastIndex == Waiting(replies[..j]) && AllOlder(replies, j, x) {
        SkippedIsOlder(replies, j, x);
      }
    }
  }

  /** Skipping an answer does exactly what scanning it would: nothing is published and the
      cursor stays. */
  lemma {:induction false} SkipIsHarmless(restored: Int64, replies: seq<Reply>, outs: seq<seq<Update>>,
                                          cursors: seq<Int64>, k: nat)
    requires Ran(restored, replies, outs, cursors) && Consistent(replies)
    requires k < |replies| && replies[k].Listing?
    ensures OneScan(outs[k], replies[k].allocs, cursors[k], cursors[k + 1])
  {
    assert Handled(replies[..k], replies[k], outs[k], cursors[k], cursors[k + 1]);
    if replies[k].lastIndex == Waiting(replies[..k]) {
      var top: int := cursors[k];
      CursorIsNewest(restored, replies, outs, cursors, k, top + 1);
      SkippedIsOlder(replies, k, top + 1);
      NothingNewer(replies[k].allocs, cursors[k]);
    }
  }

  lemma NothingNewer(allocs: seq<Allocation>, cursor: Int64)
    requires forall y :: TimeIn(allocs, y) ==> y < cursor + 1
    ensures Exactly([], allocs, cursor)
  {
    forall u ensures Wanted(allocs, cursor, u) == 0 {
      if Wanted(allocs, cursor, u) > 0 {
        var i := WantedFrom(allocs, cursor, u);
        assert ShownBy(allocs[i], Of(u));
        ShownTime(allocs, Of(u));
      }
    }
  }

  // ---- which events a run publishes ----

  /** Answer k makes the loop publish an event exactly when it is a list that shows it and its
      time is above the restored cursor and above every time in every list received before. */
  lemma {:induction false} PublishedAtAnswer(restored: Int64, replies: seq<Reply>, outs: seq<seq<Update>>,
                                             cursors: seq<Int64>, k: nat, h: Happening)
    requires Ran(restored, replies, outs, cursors) && Consistent(replies) && k < |replies|
    ensures Publishes(outs[k], h) <==>
            replies[k].Listing? && Shows(replies[k].allocs, h) &&
            restored < h.event.time && AllOlder(replies, k, h.event.time)
  {
    CursorIsNewest(restored, replies, outs, cursors, k, h.event.time);
    assert Handled(replies[..k], replies[k], outs[k], cursors[k], cursors[k + 1]);
    if replies[k].Listing? {
      SkipIsHarmless(restored, replies, outs, cursors, k);
      PublishedByScan(outs[k], replies[k].allocs, cursors[k], h);
    }
  }

  lemma ShownTime(allocs: seq<Allocation>, h: Happening)
    requires Shows(allocs, h)
    ensures TimeIn(allocs, h.event.time)
  {
    var i :| 0 <= i < |allocs| && ShownBy(allocs[i], h);
    var events := allocs[i].tasks[h.task].events;
    var k :| 0 <= k < |events| && events[k] == h.event;
    assert TimeInEvents(events, h.event.time);
    assert TimeInTasks(allocs[i], allocs[i].tasks.Keys, h.event.time);
  }

  lemma {:induction false} CursorGrows(restored: Int64, replies: seq<Reply>, outs: seq<seq<Update>>,
                                       cursors: seq<Int64>, k: nat, k': nat)
    requires Ran(restored, replies, outs, cursors) && k <= k' <= |replies|
    ensures cursors[k] <= cursors[k']
  {
    if k < k' {
      CursorGrows(restored, replies, outs, cursors, k, k' - 1);
      assert Handled(replies[..k' - 1], replies[k' - 1], outs[k' - 1], cursors[k' - 1], cursors[k']);
    }
  }

  /** What an answer publishes is above the cursor before it and not above the cursor after it. */
  lemma PublishedBetween(replies: seq<Reply>, r: Reply, out: seq<Update>, cursor: Int64, newCursor: Int64, h: Happening)
    requires Handled(replies, r, out, cursor, newCursor) && Publishes(out, h)
    ensures cursor < h.event.time <= newCursor
  {
    PublishedByScan(out, r.allocs, cursor, h);
    ShownTime(r.allocs, h);
  }

  /** What a later answer publishes is strictly newer than everything published before it,
      whatever the answers are. */
  lemma {:induction false} LaterScansAreNewer(restored: Int64, replies: seq<Reply>, outs: seq<seq<Update>>,
                                              cursors: seq<Int64>, k: nat, k': nat, h: Happening, h': Happening)
    requires Ran(restored, replies, outs, cursors) && k < k' < |replies|
    requires Publishes(outs[k], h) && Publishes(outs[k'], h')
    ensures h.event.time < h'.event.time
  {
    PublishedBetween(replies[..k], replies[k], outs[k], cursors[k], cursors[k + 1], h);
    PublishedBetween(replies[..k'], replies[k'], outs[k'], cursors[k'], cursors[k' + 1], h');
    CursorGrows(restored, replies, outs, cursors, k + 1, k');
  }

  /** The answer shows the event. */
  ghost predicate ShowsIn(r: Reply, h: Happening) {
    r.Listing? && Shows(r.allocs, h)
  }

  /** An event has one chance, whatever becomes of its allocation: it is ever published exactly
      when its time is above the restored cursor and above all times in the answers received
      before the first that shows it, and then by that answer. */
  lemma {:induction false} OnlyFirstChance(restored: Int64, replies: seq<Reply>, outs: seq<seq<Update>>,
                                           cursors: seq<Int64>, first: nat, h: Happening)
    requires Ran(restored, replies, outs, cursors) && Consistent(replies) && first < |replies|
    requires ShowsIn(replies[first], h) && forall j :: 0 <= j < first ==> !ShowsIn(replies[j], h)
    ensures (exists k :: 0 <= k < |outs| && Publishes(outs[k], h)) <==>
            restored < h.event.time && AllOlder(replies, first, h.event.time)
    ensures forall k :: 0 <= k < |outs| && Publishes(outs[k], h) ==> k == first
  {
    ShownTime(replies[first].allocs, h);
    forall k | 0 <= k < |outs| && Publishes(outs[k], h) ensures k == first {
      PublishedAtAnswer(restored, replies, outs, cursors, k, h);
      assert ShowsIn(replies[k], h);
    }
    PublishedAtAnswer(restored, replies, outs, cursors, first, h);
  }

  // ---- in which order ----

  lemma {:induction false} EventPlace(a: Allocation, task: string, events: seq<TaskEvent>, cursor: Int64, p: nat)
      returns (e: nat)
    requires task in a.tasks && p < |EventsAbove(a, task, events, cursor)|
    ensures e < |events| && EventsAbove(a, task, events, cursor)[p] == Payload(a, task, events[e])
  {
    e := |events| - 1;
    if p < |EventsAbove(a, task, events[..e], cursor)| {
      e := EventPlace(a, task, events[..e], cursor, p);
    }
  }

  lemma {:induction false} EventsInOrder(a: Allocation, task: string, events: seq<TaskEvent>, cursor: Int64,
                                         p: nat, q: nat) returns (e: nat, f: nat)
    requires task in a.tasks && p < q < |EventsAbove(a, task, events, cursor)|
    ensures e < f < |events|
    ensures EventsAbove(a, task, events, cursor)[p] == Payload(a, task, events[e])
    ensures EventsAbove(a, task, events, cursor)[q] == Payload(a, task, events[f])
  {
    f := |events| - 1;
    if q < |EventsAbove(a, task, events[..f], cursor)| {
      e, f := EventsInOrder(a, task, events[..f], cursor, p, q);
    } else {
      e := EventPlace(a, task, events[..f], cursor, p);
    }
  }

  lemma {:induction false} TaskPlace(a: Allocation, order: seq<string>, cursor: Int64, p: nat)
    requires (forall k :: 0 <= k < |order| ==> order[k] in a.tasks) && p < |TasksAbove(a, order, cursor)|
    ensures TasksAbove(a, order, cursor)[p].task in order
  {
    var n := |order| - 1;
    var before := |TasksAbove(a, order[..n], cursor)|;
    if p < before {
      TaskPlace(a, order[..n], cursor, p);
    } else {
      var e := EventPlace(a, order[n], a.tasks[order[n]].events, cursor, p - before);
    }
  }

  /** These two updates of allocation `a` are of different tasks, or of two events in order. */
  ghost predicate OneAfterOther(a: Allocation, u: Update, v: Update) {
    u.task == v.task ==>
      && u.task in a.tasks
      && exists e, f :: 0 <= e < f < |a.tasks[u.task].events| &&
           u == Payload(a, u.task, a.tasks[u.task].events[e]) && v == Payload(a, u.task, a.tasks[u.task].events[f])
  }

  lemma {:induction false} TasksInOrder(a: Allocation, order: seq<string>, cursor: Int64, p: nat, q: nat)
    requires forall k :: 0 <= k < |order| ==> order[k] in a.tasks
    requires forall k, l :: 0 <= k < l < |order| ==> order[k] != order[l]
    requires p < q < |TasksAbove(a, order, cursor)|
    ensures OneAfterOther(a, TasksAbove(a, order, cursor)[p], TasksAbove(a, order, cursor)[q])
  {
    var n := |order| - 1;
    var init, task := order[..n], order[n];
    var before := |TasksAbove(a, init, cursor)|;
    if q < before {
      TasksInOrder(a, init, cursor, p, q);
    } else {
      var f := EventPlace(a, task, a.tasks[task].events, cursor, q - before);
      if p < before {
        TaskPlace(a, init, cursor, p);
      } else {
        var e, g := EventsInOrder(a, task, a.tasks[task].events, cursor, p - before, q - before);
      }
    }
  }

  lemma {:induction false} ListPlace(allocs: seq<Allocation>, orders: seq<seq<string>>, cursor: Int64, p: nat)
      returns (i: nat)
    requires VisitsAll(orders, allocs) && p < |ListAbove(allocs, orders, cursor)|
    ensures i < |allocs| && ListAbove(allocs, orders, cursor)[p] in TasksAbove(allocs[i], orders[i], cursor)
  {
    i := |allocs| - 1;
    if p < |ListAbove(allocs[..i], orders[..i], cursor)| {
      i := ListPlace(allocs[..i], orders[..i], cursor, p);
    }
  }

  /** One scan publishes in the order of the list: the updates of an earlier allocation come
      before those of a later one, and those of one task in the order of its events. Only the
      order of the tasks of an allocation is open, as that of a Go map is. */
  lemma {:induction false} PublishedInOrder(allocs: seq<Allocation>, orders: seq<seq<string>>, cursor: Int64,
                                            p: nat, q: nat) returns (i: nat, j: nat)
    requires VisitsAll(orders, allocs) && p < q < |ListAbove(allocs, orders, cursor)|
    ensures i <= j < |allocs|
    ensures ListAbove(allocs, orders, cursor)[p] in TasksAbove(allocs[i], orders[i], cursor)
    ensures ListAbove(allocs, orders, cursor)[q] in TasksAbove(allocs[j], orders[j], cursor)
    ensures i == j ==>
              OneAfterOther(allocs[i], ListAbove(allocs, orders, cursor)[p], ListAbove(allocs, orders, cursor)[q])
  {
    j := |allocs| - 1;
    var before := |ListAbove(allocs[..j], orders[..j], cursor)|;
    if q < before {
      i, j := PublishedInOrder(allocs[..j], orders[..j], cursor, p, q);
    } else if p < before {
      i := ListPlace(allocs[..j], orders[..j], cursor, p);
    } else {
      i := j;
      TasksInOrder(allocs[j], orders[j], cursor, p - before, q - before);
    }
  }

  // ---- no event twice ----

  /** Allocation ids are distinct, and so are the events of every task. */
  ghost predicate Proper(allocs: seq<Allocation>) {
    && (forall i, j :: 0 <= i < j < |allocs| ==> allocs[i].id != allocs[j].id)
    && forall i, t :: 0 <= i < |allocs| && t in allocs[i].tasks ==> DistinctEvents(allocs[i].tasks[t].events)
  }

  ghost predicate DistinctEvents(events: seq<TaskEvent>) {
    forall a, b :: 0 <= a < b < |events| ==> events[a] != events[b]
  }

  ghost predicate NoEventTwice(out: seq<Update>) {
    forall a, b :: 0 <= a < b < |out| ==> Of(out[a]) != Of(out[b])
  }

  lemma {:induction false} DistinctEventCount(events: seq<TaskEvent>, e: TaskEvent)
    requires DistinctEvents(events)
    ensures multiset(events)[e] == if e in events then 1 else 0
  {
    if events != [] {
      var init, last := events[..|events| - 1], events[|events| - 1];
      DistinctEventCount(init, e);
      assert events == init + [last];
    }
  }

  lemma {:induction false} WantedNowhere(allocs: seq<Allocation>, cursor: Int64, u: Update)
    requires forall i :: 0 <= i < |allocs| ==> allocs[i].id != u.alloc
    ensures Wanted(allocs, cursor, u) == 0
  {
    if allocs != [] {
      WantedNowhere(allocs[..|allocs| - 1], cursor, u);
    }
  }

  lemma WantedOnce(allocs: seq<Allocation>, cursor: Int64, u: Update)
    requires Proper(allocs)
    ensures Wanted(allocs, cursor, u) <= 1
  {
    if Wanted(allocs, cursor, u) > 0 {
      var i := WantedFrom(allocs, cursor, u);
      WantedWithout(allocs, i, cursor, u);
      WantedNowhere(Without(allocs, i), cursor, u);
      DistinctEventCount(allocs[i].tasks[u.task].events, u.event);
    }
  }

  lemma TwoPlaces(out: seq<Update>, a: nat, b: nat)
    requires a < b < |out| && out[a] == out[b]
    ensures multiset(out)[out[a]] >= 2
  {
    assert out == out[..b] + out[b..];
    assert out[a] in out[..b] && out[a] in out[b..];
  }

  lemma ScanPublishesOnce(out: seq<Update>, allocs: seq<Allocation>, cursor: Int64)
    requires Exactly(out, allocs, cursor) && Proper(allocs)
    ensures NoEventTwice(out)
  {
    forall a, b | 0 <= a < b < |out| ensures Of(out[a]) != Of(out[b]) {
      if Of(out[a]) == Of(out[b]) {
        var i := InOut(out, allocs, cursor, a);
        var j := InOut(out, allocs, cursor, b);
        assert out[a] == out[b];
        TwoPlaces(out, a, b);
        WantedOnce(allocs, cursor, out[a]);
        assert false;
      }
    }
  }

  lemma {:induction false} InConcat(outs: seq<seq<Update>>, n: nat, j: nat) returns (k: nat)
    requires n <= |outs| && j < |Concat(outs[..n])|
    ensures k < n && Publishes(outs[k], Of(Concat(outs[..n])[j]))
  {
    k := n - 1;
    assert outs[..n][..k] == outs[..k];
    var before := |Concat(outs[..k])|;
    if j < before {
      k := InConcat(outs, k, j);
    } else {
      assert Of(outs[k][j - before]) == Of(Concat(outs[..n])[j]);
    }
  }

  /** When no list repeats an allocation or an event of a task, no event is published twice in
      a whole run, however often it is listed and however its allocation changes. */
  lemma {:induction false} NeverTwice(restored: Int64, replies: seq<Reply>, outs: seq<seq<Update>>,
                                      cursors: seq<Int64>, n: nat)
    requires Ran(restored, replies, outs, cursors) && n <= |replies|
    requires forall k :: 0 <= k < |replies| && replies[k].Listing? ==> Proper(replies[k].allocs)
    ensures NoEventTwice(Concat(outs[..n]))
  {
    if n > 0 {
      var m := n - 1;
      NeverTwice(restored, replies, outs, cursors, m);
      assert Handled(replies[..m], replies[m], outs[m], cursors[m], cursors[m + 1]);
      if outs[m] != [] {
        ScanPublishesOnce(outs[m], replies[m].allocs, cursors[m]);
      }
      assert outs[..n][..m] == outs[..m];
      var before := Concat(outs[..m]);
      forall a, b | 0 <= a < |before| && 0 <= b < |outs[m]| ensures Of(before[a]) != Of(outs[m][b]) {
        var k := InConcat(outs, m, a);
        assert Publishes(outs[m], Of(outs[m][b]));
        LaterScansAreNewer(restored, replies, outs, cursors, k, m, Of(before[a]), Of(outs[m][b]));
      }
      NoEventTwiceJoin(before, outs[m]);
    }
  }

  lemma NoEventTwiceJoin(s: seq<Update>, t: seq<Update>)
    requires NoEventTwice(s) && NoEventTwice(t)
    requires forall a, b :: 0 <= a < |s| && 0 <= b < |t| ==> Of(s[a]) != Of(t[b])
    ensures NoEventTwice(s + t)
  {
  }

  // ---- a run that misses an event ----

  function OneTask(id: string, task: string, events: seq<TaskEvent>): Allocation {
    Allocation(id, "running", map[task := TaskInfo("running", events)])
  }

  lemma ScanOfOneTask(id: string, task: string, events: seq<TaskEvent>, cursor: Int64, u: Update)
    ensures Wanted([OneTask(id, task, events)], cursor, u) ==
            if u == Update(id, "running", task, "running", u.event) && u.event.time > cursor
            then multiset(events)[u.event] else 0
  {
    var a := OneTask(id, task, events);
    assert [a][..0] == [];
  }

  lemma TimesOfOneTask(id: string, task: string, events: seq<TaskEvent>, x: int)
    ensures TimeIn([OneTask(id, task, events)], x) <==> TimeInEvents(events, x)
  {
    var a := OneTask(id, task, events);
    if TimeInEvents(events, x) {
      assert a.tasks[task].events == events;
      assert TimeInTasks(a, a.tasks.Keys, x);
      assert [a][0] == a;
    }
  }

  lemma FirstScan(id: string, task: string, e: TaskEvent, cursor: Int64)
    requires cursor < e.time
    ensures OneScan([Update(id, "running", task, "running", e)], [OneTask(id, task, [e])], cursor, e.time)
  {
    var out := [Update(id, "running", task, "running", e)];
    forall u ensures multiset(out)[u] == Wanted([OneTask(id, task, [e])], cursor, u) {
      ScanOfOneTask(id, task, [e], cursor, u);
    }
    assert [e][0] == e;
    forall x ensures TimeIn([OneTask(id, task, [e])], x) <==> x == e.time {
      TimesOfOneTask(id, task, [e], x);
    }
  }

  lemma SecondScan(id: string, task: string, e: TaskEvent, late: TaskEvent)
    requires late.time <= e.time
    ensures OneScan([], [OneTask(id, task, [e, late])], e.time, e.time)
  {
    forall u ensures Wanted([OneTask(id, task, [e, late])], e.time, u) == 0 {
      ScanOfOneTask(id, task, [e, late], e.time, u);
    }
    forall x | TimeIn([OneTask(id, task, [e, late])], x) ensures x <= e.time {
      TimesOfOneTask(id, task, [e, late], x);
    }
  }

  /** An event that appears in a later list with a time not above one listed before, older or
      tied, is lost, although its time is above the restored cursor. */
  lemma LateEventIsLost(restored: Int64, id: string, task: string, e: TaskEvent, late: TaskEvent, i: nat, j: nat)
    requires restored < late.time <= e.time && late != e && 1 < i < j
    ensures var replies := [Listing(i, [OneTask(id, task, [e])]), Listing(j, [OneTask(id, task, [e, late])])];
            var outs := [[Update(id, "running", task, "running", e)], []];
            && Ran(restored, replies, outs, [restored, e.time, e.time])
            && ShowsIn(replies[1], Happening(id, task, late))
            && forall k :: 0 <= k < |outs| ==> !Publishes(outs[k], Happening(id, task, late))
  {
    var newer := Listing(j, [OneTask(id, task, [e, late])]);
    var replies := [Listing(i, [OneTask(id, task, [e])]), newer];
    FirstScan(id, task, e, restored);
    SecondScan(id, task, e, late);
    assert replies[..0] == [] && replies[..1] == [replies[0]];
    assert [e, late][1] == late;
    assert ShownBy(newer.allocs[0], Happening(id, task, late));
  }
}

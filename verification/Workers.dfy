/** Sinks whose workers all receive from one bounded queue (Kinesis with three writers, HTTP
    with a configured number). A message is known by its position among all Puts. */
module Workers {
  import opened Checkpoint

  const QUEUE_CAPACITY: nat := 1000

  datatype Item = Item(position: nat, body: string)

  /** `completed` lists the messages whose request has returned, failed or not, in that order. */
  datatype Pool = Pool(puts: seq<string>, queue: seq<Item>, workers: seq<Option<Item>>, completed: seq<Item>)

  datatype Action = Put(m: string) | Receive(w: nat) | Complete(w: nat)

  function Idle(n: nat): Pool {
    Pool([], [], seq(n, _ => None), [])
  }

  predicate Enabled(p: Pool, a: Action) {
    match a
    case Put(_) => |p.queue| < QUEUE_CAPACITY
    case Receive(w) => w < |p.workers| && p.workers[w].None? && p.queue != []
    case Complete(w) => w < |p.workers| && p.workers[w].Some?
  }

  function Apply(p: Pool, a: Action): Pool
    requires Enabled(p, a)
  {
    match a
    case Put(m) => p.(puts := p.puts + [m], queue := p.queue + [Item(|p.puts|, m)])
    case Receive(w) => p.(queue := p.queue[1..], workers := p.workers[w := Some(p.queue[0])])
    case Complete(w) => p.(workers := p.workers[w := None], completed := p.completed + [p.workers[w].value])
  }

  /** The pool after these actions from p, None when some action was not possible. */
  function Exec(p: Pool, actions: seq<Action>): Option<Pool> {
    if actions == [] then Some(p) else
    match Exec(p, actions[..|actions| - 1])
    case None => None
    case Some(q) =>
      if Enabled(q, actions[|actions| - 1]) then Some(Apply(q, actions[|actions| - 1])) else None
  }

  function Run(n: nat, actions: seq<Action>): Option<Pool> {
    Exec(Idle(n), actions)
  }

  // ---- invariants ----

  ghost function Holding(o: Option<Item>): multiset<Item> {
    match o
    case None => multiset{}
    case Some(item) => multiset{item}
  }

  /** What the workers are busy with. */
  ghost function Held(ws: seq<Option<Item>>): multiset<Item> {
    if ws == [] then multiset{} else Held(ws[1..]) + Holding(ws[0])
  }

  function Numbered(puts: seq<string>): seq<Item> {
    seq(|puts|, k requires 0 <= k < |puts| => Item(k, puts[k]))
  }

  /** Queued, held and completed messages are all the Puts, each once. */
  ghost predicate Partitioned(p: Pool) {
    multiset(Numbered(p.puts)) == multiset(p.queue) + Held(p.workers) + multiset(p.completed)
  }

  ghost predicate InOrder(p: Pool) {
    && |p.queue| <= |p.puts|
    && forall k :: 0 <= k < |p.queue| ==>
         p.queue[k] == Item(|p.puts| - |p.queue| + k, p.puts[|p.puts| - |p.queue| + k])
  }

  /** With n workers the i-th completion is one of the first i + n Puts. */
  ghost predicate NotFarAhead(n: nat, p: Pool) {
    && |p.workers| == n
    && (forall w :: 0 <= w < n && p.workers[w].Some? ==> p.workers[w].value.position < |p.puts| - |p.queue|)
    && (forall i :: 0 <= i < |p.completed| ==> p.completed[i].position < i + n)
  }

  ghost predicate Inv(n: nat, p: Pool) {
    |p.queue| <= QUEUE_CAPACITY && Partitioned(p) && InOrder(p) && NotFarAhead(n, p)
  }

  lemma Swap(a: multiset<Item>, b: multiset<Item>, x: multiset<Item>, y: multiset<Item>, z: multiset<Item>)
    requires a + x == b + y
    ensures (a + z) + x == (b + z) + y
  {
    assert (a + z) + x == (a + x) + z;
  }

  lemma {:induction false} HeldChanges(ws: seq<Option<Item>>, w: nat, o: Option<Item>)
    requires w < |ws|
    ensures Held(ws[w := o]) + Holding(ws[w]) == Held(ws) + Holding(o)
  {
    var changed, rest := ws[w := o], ws[1..];
    if w == 0 {
      assert changed[1..] == rest;
      assert (Held(rest) + Holding(o)) + Holding(ws[0]) == (Held(rest) + Holding(ws[0])) + Holding(o);
    } else {
      assert changed[1..] == rest[w - 1 := o] && changed[0] == ws[0];
      HeldChanges(rest, w - 1, o);
      Swap(Held(rest[w - 1 := o]), Held(rest), Holding(ws[w]), Holding(o), Holding(ws[0]));
    }
  }

  lemma {:induction false} HeldSize(ws: seq<Option<Item>>)
    ensures |Held(ws)| <= |ws|
  {
    if ws != [] { HeldSize(ws[1..]); }
  }

  lemma {:induction false} HeldNone(ws: seq<Option<Item>>)
    requires forall w :: 0 <= w < |ws| ==> ws[w].None?
    ensures Held(ws) == multiset{}
  {
    if ws != [] { HeldNone(ws[1..]); }
  }

  lemma PartitionedPut(p: Pool, m: string)
    requires Partitioned(p)
    ensures Partitioned(p.(puts := p.puts + [m], queue := p.queue + [Item(|p.puts|, m)]))
  {
    assert Numbered(p.puts + [m]) == Numbered(p.puts) + [Item(|p.puts|, m)];
  }

  /** An item leaves one side and enters the other. */
  lemma Transfer(from: multiset<Item>, to: multiset<Item>, from': multiset<Item>, to': multiset<Item>, x: Item)
    requires from == from' + multiset{x} && to' == to + multiset{x}
    ensures from + to == from' + to'
  {
  }

  lemma HeadLeaves(queue: seq<Item>)
    requires queue != []
    ensures multiset(queue) == multiset(queue[1..]) + multiset{queue[0]}
  {
    assert queue == [queue[0]] + queue[1..];
  }

  lemma PartitionedReceive(p: Pool, w: nat)
    requires Partitioned(p) && Enabled(p, Receive(w))
    ensures Partitioned(Apply(p, Receive(w)))
  {
    var item, q := p.queue[0], Apply(p, Receive(w));
    HeldChanges(p.workers, w, Some(item));
    HeadLeaves(p.queue);
    Transfer(multiset(p.queue), Held(p.workers), multiset(q.queue), Held(q.workers), item);
  }

  lemma PartitionedComplete(p: Pool, w: nat)
    requires Partitioned(p) && Enabled(p, Complete(w))
    ensures Partitioned(Apply(p, Complete(w)))
  {
    var item, q := p.workers[w].value, Apply(p, Complete(w));
    HeldChanges(p.workers, w, None);
    assert multiset(q.completed) == multiset(p.completed) + multiset{item};
    Transfer(Held(p.workers), multiset(p.completed), Held(q.workers), multiset(q.completed), item);
    assert multiset(p.queue) + Held(p.workers) + multiset(p.completed) ==
           multiset(p.queue) + (Held(p.workers) + multiset(p.completed));
  }

  lemma PartitionedStep(p: Pool, a: Action)
    requires Partitioned(p) && Enabled(p, a)
    ensures Partitioned(Apply(p, a))
  {
    match a
    case Put(m) => PartitionedPut(p, m);
    case Receive(w) => PartitionedReceive(p, w);
    case Complete(w) => PartitionedComplete(p, w);
  }

  lemma InOrderStep(p: Pool, a: Action)
    requires InOrder(p) && Enabled(p, a)
    ensures InOrder(Apply(p, a))
  {
  }

  lemma NotFarAheadStep(n: nat, p: Pool, a: Action)
    requires Inv(n, p) && Enabled(p, a)
    ensures NotFarAhead(n, Apply(p, a))
  {
    if a.Complete? {
      HeldSize(p.workers);
      assert |p.puts| == |multiset(Numbered(p.puts))|;
    }
  }

  lemma StepKeepsInv(n: nat, p: Pool, a: Action)
    requires Inv(n, p) && Enabled(p, a)
    ensures Inv(n, Apply(p, a))
  {
    PartitionedStep(p, a);
    InOrderStep(p, a);
    NotFarAheadStep(n, p, a);
  }

  lemma {:induction false} RunKeepsInv(n: nat, actions: seq<Action>)
    requires Run(n, actions).Some?
    ensures Inv(n, Run(n, actions).value)
  {
    if actions == [] {
      HeldNone(Idle(n).workers);
    } else {
      var init, a := actions[..|actions| - 1], actions[|actions| - 1];
      RunKeepsInv(n, init);
      StepKeepsInv(n, Run(n, init).value, a);
    }
  }

  /** Completions overtake by less than the number of workers, in every run. */
  lemma {:induction false} BoundedOvertaking(n: nat, actions: seq<Action>, i: nat)
    requires Run(n, actions).Some? && i < |Run(n, actions).value.completed|
    ensures Run(n, actions).value.completed[i].position < i + n
  {
    RunKeepsInv(n, actions);
  }

  // ---- occupancy ----

  /** At most 1000 messages are queued and one is held per worker. */
  lemma Occupancy(n: nat, p: Pool)
    requires Inv(n, p)
    ensures |p.puts| == |p.queue| + |Held(p.workers)| + |p.completed|
    ensures |p.queue| + |Held(p.workers)| <= 1000 + n
  {
    HeldSize(p.workers);
    var all := multiset(Numbered(p.puts));
    assert |all| == |p.puts|;
    SplitSize(all, multiset(p.queue), Held(p.workers), multiset(p.completed));
  }

  lemma SplitSize(all: multiset<Item>, a: multiset<Item>, b: multiset<Item>, c: multiset<Item>)
    requires all == a + b + c
    ensures |all| == |a| + |b| + |c|
  {
  }

  /** Workers below w hold something, the others nothing. */
  ghost predicate BusyBelow(p: Pool, w: nat) {
    forall v :: 0 <= v < |p.workers| ==> (p.workers[v].Some? <==> v < w)
  }

  lemma {:induction false} HeldAll(ws: seq<Option<Item>>)
    requires forall w :: 0 <= w < |ws| ==> ws[w].Some?
    ensures |Held(ws)| == |ws|
  {
    if ws != [] { HeldAll(ws[1..]); }
  }

  lemma {:induction false} Extend(n: nat, actions: seq<Action>, p: Pool, a: Action)
      returns (longer: seq<Action>, q: Pool)
    requires Run(n, actions) == Some(p) && Enabled(p, a)
    ensures Run(n, longer) == Some(q) && q == Apply(p, a)
  {
    longer, q := actions + [a], Apply(p, a);
    assert longer[..|actions|] == actions;
  }

  /** The first w workers get a message each. */
  lemma {:induction false} Occupied(n: nat, w: nat, m: string) returns (actions: seq<Action>, p: Pool)
    requires w <= n
    ensures Run(n, actions) == Some(p) && p.queue == [] && |p.workers| == n && BusyBelow(p, w)
  {
    if w == 0 {
      actions, p := [], Idle(n);
    } else {
      actions, p := Occupied(n, w - 1, m);
      actions, p := Extend(n, actions, p, Put(m));
      actions, p := Extend(n, actions, p, Receive(w - 1));
    }
  }

  lemma {:induction false} Filled(n: nat, k: nat, m: string) returns (actions: seq<Action>, p: Pool)
    requires k <= 1000
    ensures Run(n, actions) == Some(p) && |p.queue| == k && |p.workers| == n && BusyBelow(p, n)
  {
    if k == 0 {
      actions, p := Occupied(n, n, m);
    } else {
      actions, p := Filled(n, k - 1, m);
      actions, p := Extend(n, actions, p, Put(m));
    }
  }

  /** And some run fills the pool to that bound. */
  lemma OccupancyReached(n: nat, m: string) returns (actions: seq<Action>)
    ensures Run(n, actions).Some?
    ensures |Run(n, actions).value.queue| + |Held(Run(n, actions).value.workers)| == 1000 + n
  {
    var p;
    actions, p := Filled(n, 1000, m);
    HeldAll(p.workers);
  }

  // ---- draining ----

  /** Steps left to complete everything: two for a queued message, one for a held one. */
  ghost function Measure(p: Pool): nat {
    2 * |p.queue| + |Held(p.workers)|
  }

  /** With at least one worker something can move as long as there is something to do; with
      none, which a worker count of 0 or less gives, nothing ever leaves the queue. */
  lemma SomethingMoves(n: nat, p: Pool)
    requires Inv(n, p)
    ensures (exists a :: Enabled(p, a) && !a.Put?) <==>
            n > 0 && (p.queue != [] || exists w :: 0 <= w < n && p.workers[w].Some?)
  {
    if n > 0 && p.workers[0].None? && p.queue != [] {
      assert Enabled(p, Receive(0));
    }
    if w :| 0 <= w < n && p.workers[w].Some? {
      assert Enabled(p, Complete(w));
    }
  }

  lemma SizesAdd(a: multiset<Item>, b: multiset<Item>, c: multiset<Item>, d: multiset<Item>)
    requires a + b == c + d
    ensures |a| + |b| == |c| + |d|
  {
    assert |a + b| == |a| + |b| && |c + d| == |c| + |d|;
  }

  lemma MeasureFalls(p: Pool, a: Action)
    requires Enabled(p, a) && !a.Put?
    ensures Apply(p, a).puts == p.puts && Measure(Apply(p, a)) + 1 == Measure(p)
  {
    var o := if a.Receive? then Some(p.queue[0]) else None;
    var q := p.workers[a.w := o];
    HeldChanges(p.workers, a.w, o);
    SizesAdd(Held(q), Holding(p.workers[a.w]), Held(p.workers), Holding(o));
  }

  /** Once Puts stop, every schedule of the workers runs down the same measure: each step
      completes part of the work and no step undoes any. */
  lemma {:induction false} Drain(n: nat, p: Pool, actions: seq<Action>)
    requires Inv(n, p) && Exec(p, actions).Some?
    requires forall k :: 0 <= k < |actions| ==> !actions[k].Put?
    ensures Inv(n, Exec(p, actions).value) && Exec(p, actions).value.puts == p.puts
    ensures Measure(Exec(p, actions).value) + |actions| == Measure(p)
  {
    if actions != [] {
      var init, a := actions[..|actions| - 1], actions[|actions| - 1];
      Drain(n, p, init);
      var q := Exec(p, init).value;
      StepKeepsInv(n, q, a);
      MeasureFalls(q, a);
    }
  }

  lemma {:induction false} BusyIsHeld(ws: seq<Option<Item>>, w: nat)
    requires w < |ws| && ws[w].Some?
    ensures |Held(ws)| > 0
  {
    assert |Held(ws)| == |Held(ws[1..])| + |Holding(ws[0])|;
    if w > 0 { BusyIsHeld(ws[1..], w - 1); }
  }

  /** With at least one worker, the workers can do nothing more exactly when the measure is 0,
      and exactly then every message put has completed, once. */
  lemma StuckMeansDone(n: nat, p: Pool)
    requires Inv(n, p) && n > 0
    ensures (forall a :: Enabled(p, a) ==> a.Put?) <==> Measure(p) == 0
    ensures Measure(p) == 0 <==> multiset(p.completed) == multiset(Numbered(p.puts))
  {
    SomethingMoves(n, p);
    if w :| 0 <= w < n && p.workers[w].Some? {
      BusyIsHeld(p.workers, w);
    } else {
      HeldNone(p.workers);
    }
    NothingElse(multiset(Numbered(p.puts)), multiset(p.queue), Held(p.workers), multiset(p.completed));
  }

  lemma NothingElse(all: multiset<Item>, a: multiset<Item>, b: multiset<Item>, c: multiset<Item>)
    requires all == a + b + c
    ensures |a| + |b| == 0 <==> c == all
  {
    assert |all| == |a| + |b| + |c|;
    if |a| + |b| == 0 {
      assert a == multiset{} && b == multiset{};
    }
  }

  /** Once Puts stop, every schedule of n > 0 workers that goes on as long as it can takes
      exactly Measure steps, and completes every message put. */
  lemma {:induction false} WorkersFinish(n: nat, p: Pool, actions: seq<Action>)
    requires Inv(n, p) && n > 0 && Exec(p, actions).Some?
    requires forall k :: 0 <= k < |actions| ==> !actions[k].Put?
    requires forall a :: Enabled(Exec(p, actions).value, a) ==> a.Put?
    ensures |actions| == Measure(p)
    ensures multiset(Exec(p, actions).value.completed) == multiset(Numbered(p.puts))
  {
    Drain(n, p, actions);
    StuckMeansDone(n, Exec(p, actions).value);
  }
}

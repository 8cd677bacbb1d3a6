/** What watcher, checkpoint protocol and sink achieve together, over every run of any number
    of processes. */
module EndToEnd {
  import opened Checkpoint
  import opened Cluster
  import opened Watcher
  import opened Replication
  import P = Pipeline

  // ---- checkpoint safety ----

  /** Every cursor value a process holds is safe. */
  ghost predicate HoldsSafe(s: System, p: Process) {
    && Safe(s, p.restored)
    && Safe(s, p.issued)
    && (p.slot.Some? ==> Safe(s, p.slot.value))
    && (p.pending.Some? ==> Safe(s, p.pending.value))
    && Safe(s, p.cursor)
  }

  /** And so is every checkpoint in the key, on its way to it, or ever written at all. */
  ghost predicate EverywhereSafe(s: System) {
    && (forall i :: 0 <= i < |s.processes| ==> HoldsSafe(s, s.processes[i]))
    && Safe(s, RestoredCursor(s.kv))
    && (forall text :: text in s.landing ==> Safe(s, RestoredCursor(Found(text))))
    && (forall text :: Written(s.processes, text) ==> Safe(s, RestoredCursor(Found(text))))
  }

  lemma ChainIsSafe(s: System, p: Process)
    requires Ordered(p) && Safe(s, p.cursor)
    ensures HoldsSafe(s, p)
  {
    SafeBelow(s, p.cursor, p.restored);
    SafeBelow(s, p.cursor, p.issued);
    if p.slot.Some? { SafeBelow(s, p.cursor, p.slot.value); }
    if p.pending.Some? { SafeBelow(s, p.cursor, p.pending.value); }
  }

  /** In every reachable state, with crashes, overlapping leaders, unfenced, lost or late
      writes, stale answers and stale or failed restores, every cursor, channel slot, pending
      send, checkpoint in the key, on its way or ever written is safe. */
  lemma {:induction false} CheckpointSafety(actions: seq<Action>)
    requires Run(actions).Some?
    ensures EverywhereSafe(Run(actions).value)
  {
    RunKeepsInvariants(actions);
    var s := Run(actions).value;
    forall i | 0 <= i < |s.processes| ensures HoldsSafe(s, s.processes[i]) {
      assert Sound(s.log, s.processes[i]);
      ChainIsSafe(s, s.processes[i]);
    }
    forall text | Written(s.processes, text) ensures Safe(s, RestoredCursor(Found(text))) {
      WrittenIsSafe(s, text);
    }
  }

  lemma {:induction false} LastAction(actions: seq<Action>, a: Action)
    requires Run(actions + [a]).Some?
    ensures Run(actions).Some? && CanAct(Run(actions).value, a)
    ensures Run(actions + [a]).value == Act(Run(actions).value, a)
  {
    assert (actions + [a])[..|actions|] == actions;
  }

  /** A takeover never skips a live version that was not handed over: whatever a new leader's
      restored cursor makes it ignore has been put into a sink by an earlier incarnation. */
  lemma {:induction false} TakeoverSkipsNothing(actions: seq<Action>, read: KvRead, id: string)
    requires Run(actions + [Lead(read)]).Some?
    ensures Run(actions).Some? && |Run(actions + [Lead(read)]).value.processes| > |Run(actions).value.processes|
    ensures var s, t := Run(actions).value, Run(actions + [Lead(read)]).value;
            var leader := t.processes[|s.processes|];
            id in Live(t.log, |t.log|) && Live(t.log, |t.log|)[id] <= leader.cursor ==>
              Handed(s.processes, Stub(id, Live(t.log, |t.log|)[id]))
  {
    LastAction(actions, Lead(read));
    RunKeepsInvariants(actions);
    var s := Run(actions).value;
    ReadIsSafe(s, read);
  }

  /** Once a process has dealt with an answer at some LastIndex, that whole index is safe:
      every version live now and not newer than the answer has been handed over. */
  lemma {:induction false} ScannedIndexIsSafe(actions: seq<Action>, i: nat, k: nat)
    requires Run(actions).Some? && i < |Run(actions).value.processes|
    requires k < |Run(actions).value.processes[i].replies| && Run(actions).value.processes[i].replies[k].Listing?
    ensures Safe(Run(actions).value, Run(actions).value.processes[i].replies[k].lastIndex)
  {
    RunKeepsInvariants(actions);
    var s := Run(actions).value;
    var p := s.processes[i];
    assert Sound(s.log, p) && Safe(s, p.cursor);
    var r := p.replies[k];
    assert Honest(s.log, r);
    var now := Live(s.log, |s.log|);
    forall id | id in now && now[id] <= r.lastIndex ensures Handed(s.processes, Stub(id, now[id])) {
      if now[id] > p.cursor {
        LivePersists(s.log, r.lastIndex, |s.log|, id);
        var b :| 0 <= b < |r.jobs| && r.jobs[b] == Stub(id, now[id]);
        CursorIsMaximum(s.log, p.restored, p.replies, now[id]);
        assert false;
      }
    }
  }

  // ---- one incarnation over time ----

  /** Later states of a process: its checkpoint writes never decrease, its cursor never goes
      back, and what it has put or attempted stays. */
  ghost predicate Advanced(p: Process, q: Process) {
    && q.restored == p.restored
    && p.issued <= q.issued
    && p.cursor <= q.cursor
    && p.pipe.puts <= q.pipe.puts
    && p.pipe.attempted <= q.pipe.attempted
  }

  lemma SinkAdvances(pipe: P.Pipe<Stub>, a: P.Act<Stub>)
    requires P.Enabled(pipe, a)
    ensures pipe.puts <= P.Apply(true, pipe, a).puts
    ensures pipe.attempted <= P.Apply(true, pipe, a).attempted
  {
  }

  lemma StepAdvances(log: Log, p: Process, step: Step)
    requires Sound(log, p) && CanStep(log, p, step)
    ensures Advanced(p, DoStep(log, p, step))
  {
    match step
    case Examine =>
      var job := p.scan.value.jobs[p.scan.value.next];
      if job.index > p.cursor { SinkAdvances(p.pipe, P.Put(job)); }
    case Sink(a) => SinkAdvances(p.pipe, a);
    case _ =>
  }

  lemma {:induction false} ActAdvances(s: System, a: Action, i: nat)
    requires AllSound(s) && CanAct(s, a) && i < |s.processes|
    ensures i < |Act(s, a).processes| && Advanced(s.processes[i], Act(s, a).processes[i])
  {
    assert Sound(s.log, s.processes[i]);
    if a.Local? && a.who == i {
      StepAdvances(s.log, s.processes[i], a.step);
    }
  }

  /** In every run, from any moment on, each incarnation only advances; in particular the
      checkpoints it writes never decrease. */
  lemma {:induction false} IncarnationsAdvance(actions: seq<Action>, n: nat, i: nat)
    requires Run(actions).Some? && n <= |actions|
    ensures Run(actions[..n]).Some?
    ensures i < |Run(actions[..n]).value.processes| ==>
              i < |Run(actions).value.processes| &&
              Advanced(Run(actions[..n]).value.processes[i], Run(actions).value.processes[i])
  {
    if n == |actions| {
      assert actions[..n] == actions;
    } else {
      var init := actions[..|actions| - 1];
      assert init[..n] == actions[..n];
      IncarnationsAdvance(init, n, i);
      RunKeepsInvariants(init);
      if i < |Run(init).value.processes| {
        ActAdvances(Run(init).value, actions[|actions| - 1], i);
      }
    }
  }

  /** The cursor chain holds in every reachable state. */
  lemma {:induction false} ChainOrder(actions: seq<Action>, i: nat)
    requires Run(actions).Some? && i < |Run(actions).value.processes|
    ensures var p := Run(actions).value.processes[i];
            && p.restored <= p.issued <= p.cursor <= p.newMax
            && (p.slot.Some? ==> p.issued <= p.slot.value <= p.cursor)
            && (p.pending.Some? ==> p.issued <= p.pending.value <= p.cursor)
            && (p.slot.Some? && p.pending.Some? ==> p.slot.value <= p.pending.value)
  {
    RunKeepsInvariants(actions);
    assert Sound(Run(actions).value.log, Run(actions).value.processes[i]);
  }

  lemma DistinctPrefix(s: seq<Stub>, t: seq<Stub>)
    requires Distinct(t) && s <= t
    ensures Distinct(s)
  {
  }

  /** What a process has put is a prefix of what its watcher hands over by the end of the
      answer it is scanning. */
  lemma {:induction false} PutsPrefix(log: Log, p: Process) returns (replies: seq<Reply>)
    requires Sound(log, p)
    ensures AllHonest(log, replies) && p.pipe.puts <= Polled(p.restored, replies).handed
  {
    match p.scan
    case None => replies := p.replies;
    case Some(sc) =>
      var r := Listing(sc.lastIndex, sc.jobs);
      HonestNext(log, p.replies, r);
      PolledNext(p.restored, p.replies, r);
      AbovePrefix(sc.jobs, sc.next, p.cursor);
      replies := p.replies + [r];
  }

  /** No incarnation puts one version twice. */
  lemma {:induction false} PutsAreDistinct(log: Log, p: Process)
    requires Sound(log, p)
    ensures Distinct(p.pipe.puts)
  {
    var replies := PutsPrefix(log, p);
    NeverTwice(log, p.restored, replies);
    DistinctPrefix(p.pipe.puts, Polled(p.restored, replies).handed);
  }

  lemma {:induction false} AbovePrefix(jobs: seq<Stub>, k: nat, cursor: nat)
    requires k <= |jobs|
    ensures Above(jobs[..k], cursor) <= Above(jobs, cursor)
  {
    if k < |jobs| {
      AbovePrefix(jobs[..|jobs| - 1], k, cursor);
      assert jobs[..|jobs| - 1][..k] == jobs[..k];
    } else {
      assert jobs[..k] == jobs;
    }
  }

  /** The queue service accepts no version twice from one incarnation, over any pattern of
      stale answers, request failures and item-by-item retries. */
  lemma {:induction false} AcceptedOnce(actions: seq<Action>, i: nat, a: nat, b: nat)
    requires Run(actions).Some? && i < |Run(actions).value.processes|
    requires a < b < |P.AcceptedEntries(Run(actions).value.processes[i].pipe.calls)|
    ensures var accepted := P.AcceptedEntries(Run(actions).value.processes[i].pipe.calls);
            accepted[a].id < accepted[b].id && accepted[a].body != accepted[b].body
  {
    RunKeepsInvariants(actions);
    var s := Run(actions).value;
    var p := s.processes[i];
    assert Sound(s.log, p);
    PutsAreDistinct(s.log, p);
    var acts :| P.Run(true, acts) == Some(p.pipe);
    P.IdDiscipline(true, acts);
    P.RunKeepsInv(true, acts);
    AcceptedCarryPuts(p.pipe, p.pipe.calls);
  }

  lemma {:induction false} AcceptedCarryPuts(pipe: P.Pipe<Stub>, calls: seq<P.Call<Stub>>)
    requires forall c :: 0 <= c < |calls| ==> P.CarriesPuts(pipe, calls[c].entries)
    ensures P.CarriesPuts(pipe, P.AcceptedEntries(calls))
  {
    if calls != [] {
      AcceptedCarryPuts(pipe, calls[..|calls| - 1]);
      assert P.CarriesPuts(pipe, calls[|calls| - 1].entries);
    }
  }

  lemma PutsAreInOrder(log: Log, p: Process)
    requires Sound(log, p)
    ensures InOrder(p.pipe.puts)
  {
    var replies := PutsPrefix(log, p);
    HandedInOrder(log, p.restored, replies);
  }

  /** From one incarnation the queue service accepts the versions of each object in increasing
      order, whatever was stale, failed or retried. */
  lemma {:induction false} AcceptedInOrder(actions: seq<Action>, i: nat, a: nat, b: nat)
    requires Run(actions).Some? && i < |Run(actions).value.processes|
    requires a < b < |P.AcceptedEntries(Run(actions).value.processes[i].pipe.calls)|
    ensures var accepted := P.AcceptedEntries(Run(actions).value.processes[i].pipe.calls);
            accepted[a].body.id == accepted[b].body.id ==> accepted[a].body.index < accepted[b].body.index
  {
    RunKeepsInvariants(actions);
    var s := Run(actions).value;
    var p := s.processes[i];
    assert Sound(s.log, p);
    PutsAreInOrder(s.log, p);
    var acts :| P.Run(true, acts) == Some(p.pipe);
    P.IdDiscipline(true, acts);
    AcceptedCarryPuts(p.pipe, p.pipe.calls);
  }

  // ---- ids across incarnations ----

  lemma ProcessIdsUsed(log: Log, p: Process, k: nat)
    requires Sound(log, p)
    ensures P.Requested(p.pipe, k) <==> k < P.IdsUsed(p.pipe)
  {
    var acts :| P.Run(true, acts) == Some(p.pipe);
    P.IdsUsedExactly(true, acts);
  }

  /** Exactly when two incarnations have used the same deduplication id, the first for the k-th
      message it put and the second for its own k-th: both have got that far. */
  lemma {:induction false} IdsRepeatExactly(actions: seq<Action>, i: nat, j: nat, k: nat)
    requires Run(actions).Some? && i < |Run(actions).value.processes| && j < |Run(actions).value.processes|
    ensures var p, q := Run(actions).value.processes[i].pipe, Run(actions).value.processes[j].pipe;
            P.Requested(p, k) && P.Requested(q, k) <==> k < P.IdsUsed(p) && k < P.IdsUsed(q)
  {
    RunKeepsInvariants(actions);
    var s := Run(actions).value;
    assert Sound(s.log, s.processes[i]) && Sound(s.log, s.processes[j]);
    ProcessIdsUsed(s.log, s.processes[i], k);
    ProcessIdsUsed(s.log, s.processes[j], k);
  }

  // ---- accounting across crashes ----

  function Puts(ps: seq<Process>): multiset<Stub> {
    if ps == [] then multiset{} else Puts(ps[1..]) + multiset(ps[0].pipe.puts)
  }

  function Attempted(ps: seq<Process>): multiset<Stub> {
    if ps == [] then multiset{} else Attempted(ps[1..]) + multiset(ps[0].pipe.attempted)
  }

  /** Messages still inside the sinks of running (`alive`) or crashed processes. */
  function Inside(ps: seq<Process>, alive: bool): multiset<Stub> {
    if ps == [] then multiset{} else
    Inside(ps[1..], alive) + (if ps[0].alive == alive then multiset(P.InPipe(ps[0].pipe)) else multiset{})
  }

  function Count(ps: seq<Process>, alive: bool): nat {
    if ps == [] then 0 else Count(ps[1..], alive) + (if ps[0].alive == alive then 1 else 0)
  }

  lemma PipeAccount(pipe: P.Pipe<Stub>)
    requires Reachable(pipe)
    ensures multiset(pipe.puts) == multiset(pipe.attempted) + multiset(P.InPipe(pipe))
    ensures |P.InPipe(pipe)| <= 2020
  {
    var acts :| P.Run(true, acts) == Some(pipe);
    P.RunKeepsInv(true, acts);
    P.Occupancy(pipe);
    assert pipe.puts == pipe.attempted + P.InPipe(pipe);
  }

  /** Everything put is exactly the attempted messages, those inside running sinks and those
      lost inside crashed ones, with at most 2020 in each sink. */
  ghost predicate SplitsExactly(ps: seq<Process>) {
    && Puts(ps) == Attempted(ps) + Inside(ps, true) + Inside(ps, false)
    && |Inside(ps, true)| <= 2020 * Count(ps, true)
    && |Inside(ps, false)| <= 2020 * Count(ps, false)
  }

  lemma {:induction false} Account(ps: seq<Process>)
    requires forall i :: 0 <= i < |ps| ==> Reachable(ps[i].pipe)
    ensures SplitsExactly(ps)
  {
    if ps != [] {
      var rest := ps[1..];
      Account(rest);
      PipeAccount(ps[0].pipe);
      AccountNext(ps[0], Puts(rest), Attempted(rest), Inside(rest, true), Inside(rest, false));
    }
  }

  lemma AccountNext(p: Process, puts: multiset<Stub>, sent: multiset<Stub>, held: multiset<Stub>, lost: multiset<Stub>)
    requires puts == sent + held + lost
    requires multiset(p.pipe.puts) == multiset(p.pipe.attempted) + multiset(P.InPipe(p.pipe))
    ensures var inside := multiset(P.InPipe(p.pipe));
            && puts + multiset(p.pipe.puts) == (sent + multiset(p.pipe.attempted)) + (held + inside) + lost
            && puts + multiset(p.pipe.puts) == (sent + multiset(p.pipe.attempted)) + held + (lost + inside)
  {
  }

  /** How many crashes the run contains. */
  function Crashes(actions: seq<Action>): nat {
    if actions == [] then 0 else
    Crashes(actions[..|actions| - 1]) +
    (if actions[|actions| - 1].Local? && actions[|actions| - 1].step.Crash? then 1 else 0)
  }

  lemma {:induction false} CountAppends(ps: seq<Process>, p: Process, alive: bool)
    ensures Count(ps + [p], alive) == Count(ps, alive) + (if p.alive == alive then 1 else 0)
  {
    if ps == [] {
      assert ps + [p] == [p];
    } else {
      assert (ps + [p])[1..] == ps[1..] + [p];
      CountAppends(ps[1..], p, alive);
    }
  }

  lemma {:induction false} CountUpdates(ps: seq<Process>, k: nat, p: Process, alive: bool)
    requires k < |ps|
    ensures Count(ps[k := p], alive) + (if ps[k].alive == alive then 1 else 0) ==
            Count(ps, alive) + (if p.alive == alive then 1 else 0)
  {
    if k == 0 {
      assert ps[0 := p][1..] == ps[1..];
    } else {
      assert ps[k := p][1..] == ps[1..][k - 1 := p];
      CountUpdates(ps[1..], k - 1, p, alive);
    }
  }

  lemma StepLiveness(log: Log, p: Process, step: Step)
    requires CanStep(log, p, step)
    ensures p.alive && DoStep(log, p, step).alive == !step.Crash?
  {
  }

  lemma {:induction false} DeadAreCrashes(actions: seq<Action>)
    requires Run(actions).Some?
    ensures Count(Run(actions).value.processes, false) == Crashes(actions)
  {
    if actions != [] {
      var init, a := actions[..|actions| - 1], actions[|actions| - 1];
      DeadAreCrashes(init);
      var s := Run(init).value;
      match a
      case Lead(read) => CountAppends(s.processes, Fresh(RestoredCursor(read)), false);
      case Local(who, step) =>
        StepLiveness(s.log, s.processes[who], step);
        CountUpdates(s.processes, who, DoStep(s.log, s.processes[who], step), false);
      case Checkpoint(who) =>
        CountUpdates(s.processes, who, Act(s, a).processes[who], false);
      case _ =>
    }
  }


  /** In every reachable state everything handed over is exactly the attempted messages, those
      inside running sinks and those lost inside crashed ones. */
  lemma {:induction false} HandedMessagesAccount(actions: seq<Action>)
    requires Run(actions).Some?
    ensures SplitsExactly(Run(actions).value.processes)
  {
    RunKeepsInvariants(actions);
    var s := Run(actions).value;
    forall i | 0 <= i < |s.processes| ensures Reachable(s.processes[i].pipe) {
      assert Sound(s.log, s.processes[i]);
    }
    Account(s.processes);
  }

  /** Over a run with k crashes at most 2020 k messages are lost. */
  lemma {:induction false} LossPerCrash(actions: seq<Action>)
    requires Run(actions).Some?
    ensures |Inside(Run(actions).value.processes, false)| <= 2020 * Crashes(actions)
  {
    HandedMessagesAccount(actions);
    DeadAreCrashes(actions);
  }

  // ---- what a checkpoint can cost ----

  ghost predicate WasAttempted(ps: seq<Process>, v: Stub) {
    exists i :: 0 <= i < |ps| && v in ps[i].pipe.attempted
  }

  /** Versions live now, at or below v, that no incarnation has tried to send. */
  ghost function NeverSent(s: System, v: nat): set<Stub> {
    set id | id in Live(s.log, |s.log|) && Live(s.log, |s.log|)[id] <= v &&
             !WasAttempted(s.processes, Stub(id, Live(s.log, |s.log|)[id]))
           :: Stub(id, Live(s.log, |s.log|)[id])
  }

  lemma {:induction false} PutsMember(ps: seq<Process>, i: nat, v: Stub)
    requires i < |ps| && v in ps[i].pipe.puts
    ensures v in Puts(ps)
  {
    if i > 0 { PutsMember(ps[1..], i - 1, v); }
  }

  lemma {:induction false} AttemptedMember(ps: seq<Process>, v: Stub)
    requires v in Attempted(ps)
    ensures WasAttempted(ps, v)
  {
    if v in ps[0].pipe.attempted {
    } else {
      AttemptedMember(ps[1..], v);
      var i :| 0 <= i < |ps[1..]| && v in ps[1..][i].pipe.attempted;
      assert v in ps[i + 1].pipe.attempted;
    }
  }

  lemma {:induction false} SetInMultiset(xs: set<Stub>, m: multiset<Stub>)
    requires forall x :: x in xs ==> x in m
    ensures |xs| <= |m|
  {
    if xs != {} {
      var x :| x in xs;
      SetInMultiset(xs - {x}, m - multiset{x});
    }
  }

  /** Below any safe value, what was never sent sits inside some sink: at most what running
      sinks hold plus 2020 per crash. */
  lemma {:induction false} UnsentBelowSafe(actions: seq<Action>, v: nat)
    requires Run(actions).Some? && Safe(Run(actions).value, v)
    ensures var s := Run(actions).value;
            |NeverSent(s, v)| <= |Inside(s.processes, true)| + 2020 * Crashes(actions)
  {
    var s := Run(actions).value;
    HandedMessagesAccount(actions);
    LossPerCrash(actions);
    var held := Inside(s.processes, true) + Inside(s.processes, false);
    forall x | x in NeverSent(s, v) ensures x in held {
      var i :| 0 <= i < |s.processes| && x in s.processes[i].pipe.puts;
      PutsMember(s.processes, i, x);
      if x in Attempted(s.processes) { AttemptedMember(s.processes, x); }
    }
    SetInMultiset(NeverSent(s, v), held);
  }

  /** Loss bound: the live versions a checkpoint in the key covers but nobody ever tried to
      send number at most those still in running sinks plus 2020 per crash. */
  lemma {:induction false} CheckpointLossBound(actions: seq<Action>)
    requires Run(actions).Some?
    ensures var s := Run(actions).value;
            |NeverSent(s, RestoredCursor(s.kv))| <= |Inside(s.processes, true)| + 2020 * Crashes(actions)
  {
    RunKeepsInvariants(actions);
    UnsentBelowSafe(actions, RestoredCursor(Run(actions).value.kv));
  }

  /** A process has either tried to send a version it put or still holds it, never both. */
  lemma AttemptedOrInside(log: Log, p: Process, x: Stub)
    requires Sound(log, p)
    ensures x in p.pipe.attempted <==> x in p.pipe.puts && x !in P.InPipe(p.pipe)
  {
    PutsAreDistinct(log, p);
    var acts :| P.Run(true, acts) == Some(p.pipe);
    P.RunKeepsInv(true, acts);
    DistinctHalves(p.pipe.attempted, P.InPipe(p.pipe), p.pipe.puts, x);
  }

  lemma DistinctHalves(s: seq<Stub>, t: seq<Stub>, all: seq<Stub>, x: Stub)
    requires all == s + t && Distinct(all)
    ensures x in s <==> x in all && x !in t
  {
    if a :| 0 <= a < |s| && s[a] == x {
      forall b | 0 <= b < |t| ensures t[b] != x {
        assert all[a] != all[|s| + b];
      }
    }
  }

  /** Every incarnation that put the version still holds it in its sink, or crashed holding it. */
  ghost predicate StillHeld(ps: seq<Process>, x: Stub) {
    forall i :: 0 <= i < |ps| && x in ps[i].pipe.puts ==> x in P.InPipe(ps[i].pipe)
  }

  /** The version is live now and at or below v. */
  ghost predicate LiveBelow(log: Log, v: nat, x: Stub) {
    x.id in Live(log, |log|) && Live(log, |log|)[x.id] == x.index <= v
  }

  /** Exactly which versions at or below v were never sent: the live ones that every incarnation
      that put them still holds in its sink, or held there when it crashed. */
  lemma {:induction false} UnsentExactly(actions: seq<Action>, v: nat, x: Stub)
    requires Run(actions).Some?
    ensures x in NeverSent(Run(actions).value, v) <==>
            LiveBelow(Run(actions).value.log, v, x) && StillHeld(Run(actions).value.processes, x)
  {
    RunKeepsInvariants(actions);
    var s := Run(actions).value;
    forall i | 0 <= i < |s.processes|
      ensures x in s.processes[i].pipe.attempted <==>
              x in s.processes[i].pipe.puts && x !in P.InPipe(s.processes[i].pipe)
    {
      assert Sound(s.log, s.processes[i]);
      AttemptedOrInside(s.log, s.processes[i], x);
    }
    assert x in NeverSent(s, v) <==> LiveBelow(s.log, v, x) && !WasAttempted(s.processes, x);
  }

  /** No live version at or below v is still held by every incarnation that put it. */
  ghost predicate NoneStillHeld(s: System, v: nat) {
    forall id :: id in Live(s.log, |s.log|) && Live(s.log, |s.log|)[id] <= v ==>
      !StillHeld(s.processes, Stub(id, Live(s.log, |s.log|)[id]))
  }

  /** Everything the checkpoint covers was sent exactly when no live version it covers is still
      held by every incarnation that put it. */
  lemma {:induction false} CheckpointMeansSentExactly(actions: seq<Action>)
    requires Run(actions).Some?
    ensures var s := Run(actions).value;
            NeverSent(s, RestoredCursor(s.kv)) == {} <==> NoneStillHeld(s, RestoredCursor(s.kv))
  {
    var s := Run(actions).value;
    var live, v := Live(s.log, |s.log|), RestoredCursor(s.kv);
    if NeverSent(s, v) == {} {
      forall id | id in live && live[id] <= v ensures !StillHeld(s.processes, Stub(id, live[id])) {
        UnsentExactly(actions, v, Stub(id, live[id]));
      }
    } else {
      var x :| x in NeverSent(s, v);
      UnsentExactly(actions, v, x);
      assert x == Stub(x.id, live[x.id]) && StillHeld(s.processes, x);
    }
  }

  /** An answer at index i shows every object live now at its live version. */
  ghost predicate ShowsAll(log: Log, i: nat) {
    i <= |log| && forall id :: id in Live(log, |log|) ==> Live(log, |log|)[id] <= i
  }

  /** Delivery: when some process has dealt with an answer that shows every live version, which
      need not be at the last commit, and the running sinks are empty, all live versions but
      2020 per crash have been sent; without crashes, all of them. */
  lemma {:induction false} CaughtUp(actions: seq<Action>, i: nat, k: nat)
    requires Run(actions).Some? && i < |Run(actions).value.processes|
    requires k < |Run(actions).value.processes[i].replies| && Run(actions).value.processes[i].replies[k].Listing?
    requires ShowsAll(Run(actions).value.log, Run(actions).value.processes[i].replies[k].lastIndex)
    requires |Inside(Run(actions).value.processes, true)| == 0
    ensures |NeverSent(Run(actions).value, |Run(actions).value.log|)| <= 2020 * Crashes(actions)
    ensures Crashes(actions) == 0 ==>
              var s := Run(actions).value;
              forall id :: id in Live(s.log, |s.log|) ==> WasAttempted(s.processes, Stub(id, Live(s.log, |s.log|)[id]))
  {
    var s := Run(actions).value;
    var shown := s.processes[i].replies[k].lastIndex;
    ScannedIndexIsSafe(actions, i, k);
    UnsentBelowSafe(actions, shown);
    assert NeverSent(s, |s.log|) == NeverSent(s, shown);
    if Crashes(actions) == 0 {
      assert NeverSent(s, |s.log|) == {};
      forall id | id in Live(s.log, |s.log|)
        ensures WasAttempted(s.processes, Stub(id, Live(s.log, |s.log|)[id]))
      {
        LiveBounds(s.log, |s.log|, id);
        assert Stub(id, Live(s.log, |s.log|)[id]) !in NeverSent(s, |s.log|);
      }
    }
  }

  // ---- the loss is real ----

  lemma {:induction false} Extend(actions: seq<Action>, s: System, a: Action) returns (longer: seq<Action>, t: System)
    requires Run(actions) == Some(s) && CanAct(s, a)
    ensures t == Act(s, a) && Run(longer) == Some(t)
    ensures Crashes(longer) == Crashes(actions) + (if a.Local? && a.step.Crash? then 1 else 0)
  {
    longer, t := actions + [a], Act(s, a);
    assert longer[..|actions|] == actions;
  }

  lemma LiveAfterCreation(id: string)
    ensures Live([map[id := Upsert]], 1) == map[id := 1]
  {
    assert Live([map[id := Upsert]], 0) == map[];
  }

  /** One object is created and a leader receives the list showing it. */
  lemma OneObjectListed(v: Stub) returns (actions: seq<Action>, s: System)
    requires v.index == 1
    ensures Run(actions) == Some(s) && Crashes(actions) == 0
    ensures s == System([map[v.id := Upsert]], [Fresh(0).(scan := Some(Scanning(1, [v], 0)))], Missing, multiset{})
  {
    LiveAfterCreation(v.id);
    assert [v][0] == v && Lists([v], Live([map[v.id := Upsert]], 1));
    actions, s := Extend([], Initial(), Committed(map[v.id := Upsert]));
    actions, s := Extend(actions, s, Lead(Missing));
    actions, s := Extend(actions, s, Local(0, Listed(1, [v])));
  }

  /** The leader puts the object, advances its cursor and checkpoints it. */
  lemma OneObjectCheckpointed(v: Stub) returns (actions: seq<Action>, s: System)
    requires v.index == 1
    ensures Run(actions) == Some(s) && Crashes(actions) == 0
    ensures s.log == [map[v.id := Upsert]] && |s.processes| == 1 && s.landing == multiset{PrintNat(1)}
    ensures s.processes[0].alive && s.processes[0].pipe.attempted == []
  {
    actions, s := OneObjectListed(v);
    actions, s := Extend(actions, s, Local(0, Examine));
    actions, s := Extend(actions, s, Local(0, EndScan));
    actions, s := Extend(actions, s, Local(0, SaveTick));
    actions, s := Extend(actions, s, Local(0, Send));
    actions, s := Extend(actions, s, Checkpoint(0));
  }

  /** The write lands, the leader crashes, and the next one restores from it. */
  lemma OneObjectSkipped(v: Stub) returns (actions: seq<Action>, s: System)
    requires v.index == 1
    ensures Run(actions) == Some(s) && Crashes(actions) == 1
    ensures s.log == [map[v.id := Upsert]] && |s.processes| == 2 && s.processes[1] == Fresh(1)
    ensures s.processes[0].pipe.attempted == []
  {
    actions, s := OneObjectCheckpointed(v);
    actions, s := Extend(actions, s, Land(PrintNat(1)));
    actions, s := Extend(actions, s, Local(0, Crash));
    UnsignedRoundTrip(1);
    actions, s := Extend(actions, s, Lead(s.kv));
  }

  /** A checkpoint does not promise that what it covers was sent: after one crash the next
      leader starts above a version that nobody tried to send. `UnsentExactly` says which
      versions this can happen to. */
  lemma LossHappens(v: Stub) returns (actions: seq<Action>, s: System)
    requires v.index == 1
    ensures Run(actions) == Some(s) && Crashes(actions) == 1
    ensures |s.processes| == 2 && s.processes[1].alive && NeverSent(s, s.processes[1].cursor) == {v}
  {
    actions, s := OneObjectSkipped(v);
    assert !WasAttempted(s.processes, v);
    OnlyObjectUnsent(s, v);
  }

  lemma OnlyObjectUnsent(s: System, v: Stub)
    requires v.index == 1 && s.log == [map[v.id := Upsert]] && !WasAttempted(s.processes, v)
    ensures NeverSent(s, 1) == {v}
  {
    LiveAfterCreation(v.id);
    var live := Live(s.log, |s.log|);
    assert live == map[v.id := 1] && v == Stub(v.id, live[v.id]);
    forall x ensures x in NeverSent(s, 1) <==> x == v {
      assert x in NeverSent(s, 1) ==> exists id :: id in live && x == Stub(id, live[id]);
    }
  }

  // ---- one id for two versions ----

  /** The sink after one message was put, received, flushed, taken and accepted. */
  function FirstSent(v: Stub): P.Pipe<Stub> {
    P.Pipe([v], [], [], [], [], 1, P.Idle, [[v]], [v], [P.Call([P.Entry(0, v)], P.Accepted)])
  }

  lemma ThreeSteps(p: P.Pipe<Stub>, q: P.Pipe<Stub>, r: P.Pipe<Stub>, a: P.Act<Stub>, b: P.Act<Stub>, c: P.Act<Stub>)
    requires P.Enabled(p, a) && P.Apply(true, p, a) == q
    requires P.Enabled(q, b) && P.Apply(true, q, b) == r && P.Enabled(r, c)
    ensures P.Exec(true, p, [a, b, c]) == Some(P.Apply(true, r, c))
  {
    assert [a, b, c][..2] == [a, b] && [a, b][..1] == [a] && [a][..0] == [];
    assert P.Exec(true, p, [a]) == Some(q);
    assert P.Exec(true, p, [a, b]) == Some(r);
  }

  lemma BatchFirst(v: Stub)
    ensures P.Exec(true, P.Apply(true, P.Start(), P.Put(v)), [P.Receive, P.Tick, P.SendBatch]) ==
            Some(P.Pipe([v], [], [], [], [[v]], 0, P.Idle, [], [], []))
  {
    var buffered := P.Pipe([v], [], [v], [], [], 0, P.Idle, [], [], []);
    var flushed := P.Pipe([v], [], [], [[v]], [], 0, P.Idle, [], [], []);
    ThreeSteps(P.Apply(true, P.Start(), P.Put(v)), buffered, flushed, P.Receive, P.Tick, P.SendBatch);
    assert P.Apply(true, flushed, P.SendBatch) == P.Pipe([v], [], [], [], [[v]], 0, P.Idle, [], [], []);
  }

  lemma SendFirst(v: Stub)
    ensures P.Exec(true, P.Pipe([v], [], [], [], [[v]], 0, P.Idle, [], [], []), [P.Take, P.Return(P.Accepted)]) ==
            Some(FirstSent(v))
  {
    var queued := P.Pipe([v], [], [], [], [[v]], 0, P.Idle, [], [], []);
    var es := [P.Entry(0, v)];
    var calling := P.Pipe([v], [], [], [], [], 1, P.Calling(es), [[v]], [], []);
    assert P.Number(0, [v]) == es && P.Bodies(es) == [v];
    assert P.Apply(true, queued, P.Take) == calling;
    var acts: seq<P.Act<Stub>> := [P.Take, P.Return(P.Accepted)];
    assert acts[..1] == [P.Take] && acts[..1][..0] == [];
    assert P.Exec(true, queued, acts[..1][..0]) == Some(queued);
    assert P.Exec(true, queued, acts[..1]) == Some(calling);
    assert P.Apply(true, calling, P.Return(P.Accepted)) == FirstSent(v);
  }

  /** A running process takes these steps of its sink, and nothing else happens. */
  lemma {:induction false} SinkSteps(actions: seq<Action>, s: System, i: nat, acts: seq<P.Act<Stub>>)
      returns (longer: seq<Action>, t: System)
    requires Run(actions) == Some(s) && i < |s.processes| && s.processes[i].alive
    requires P.Exec(true, s.processes[i].pipe, acts).Some?
    requires forall k :: 0 <= k < |acts| ==> !acts[k].Put?
    ensures Run(longer) == Some(t)
    ensures t == s.(processes := s.processes[i := s.processes[i].(pipe :=
                      P.Exec(true, s.processes[i].pipe, acts).value)])
  {
    if acts == [] {
      longer, t := actions, s;
    } else {
      var n := |acts| - 1;
      longer, t := SinkSteps(actions, s, i, acts[..n]);
      longer, t := Extend(longer, t, Local(i, Sink(acts[n])));
    }
  }

  /** A leader that restores nothing puts the first row of the list. */
  lemma {:induction false} FirstPut(actions: seq<Action>, s: System, jobs: seq<Stub>)
      returns (longer: seq<Action>, t: System)
    requires Run(actions) == Some(s) && |s.log| == 1 && Lists(jobs, Live(s.log, 1)) && jobs != []
    requires jobs[0].index == 1
    ensures Run(longer) == Some(t) && t.log == s.log && |t.processes| == |s.processes| + 1
    ensures t.processes[..|s.processes|] == s.processes && t.processes[|s.processes|].alive
    ensures t.processes[|s.processes|].pipe == P.Apply(true, P.Start(), P.Put(jobs[0]))
  {
    longer, t := Extend(actions, s, Lead(ReadError));
    longer, t := Extend(longer, t, Local(|s.processes|, Listed(1, jobs)));
    longer, t := Extend(longer, t, Local(|s.processes|, Examine));
  }

  lemma {:induction false} FirstAccepted(actions: seq<Action>, s: System, jobs: seq<Stub>)
      returns (longer: seq<Action>, t: System)
    requires Run(actions) == Some(s) && |s.log| == 1 && Lists(jobs, Live(s.log, 1)) && jobs != []
    requires jobs[0].index == 1
    ensures Run(longer) == Some(t) && t.log == s.log && |t.processes| == |s.processes| + 1
    ensures t.processes[..|s.processes|] == s.processes
    ensures t.processes[|s.processes|].pipe == FirstSent(jobs[0])
  {
    longer, t := FirstPut(actions, s, jobs);
    BatchFirst(jobs[0]);
    longer, t := SinkSteps(longer, t, |s.processes|, [P.Receive, P.Tick, P.SendBatch]);
    SendFirst(jobs[0]);
    longer, t := SinkSteps(longer, t, |s.processes|, [P.Take, P.Return(P.Accepted)]);
  }

  lemma TwoObjects(a: Stub, b: Stub)
    requires a.id != b.id && a.index == b.index == 1
    ensures var log: Log := [map[a.id := Upsert, b.id := Upsert]];
            Lists([a, b], Live(log, 1)) && Lists([b, a], Live(log, 1))
  {
    var log: Log := [map[a.id := Upsert, b.id := Upsert]];
    assert Live(log, 0) == map[];
    assert Live(log, 1) == map[a.id := 1, b.id := 1];
    assert [a, b][0] == a && [a, b][1] == b && [b, a][0] == b && [b, a][1] == a;
  }

  /** Ids are not unique across incarnations: two leaders, one after the other or at once, have
      different versions accepted under the same deduplication id. A queue that drops repeated
      deduplication ids delivers only one of them. */
  lemma OneIdTwoVersions(a: Stub, b: Stub) returns (actions: seq<Action>, s: System)
    requires a.id != b.id && a.index == b.index == 1
    ensures Run(actions) == Some(s) && |s.processes| == 2
    ensures P.AcceptedEntries(s.processes[0].pipe.calls) == [P.Entry(0, a)]
    ensures P.AcceptedEntries(s.processes[1].pipe.calls) == [P.Entry(0, b)]
  {
    TwoObjects(a, b);
    AcceptedOne(a);
    AcceptedOne(b);
    actions, s := TwoCreated(a, b);
    actions, s := FirstAccepted(actions, s, [a, b]);
    var before := s.processes;
    actions, s := FirstAccepted(actions, s, [b, a]);
    SameFirst(before, s.processes);
  }

  lemma TwoCreated(a: Stub, b: Stub) returns (actions: seq<Action>, s: System)
    ensures Run(actions) == Some(s) && s.processes == [] && s.log == [map[a.id := Upsert, b.id := Upsert]]
  {
    actions, s := Extend([], Initial(), Committed(map[a.id := Upsert, b.id := Upsert]));
  }

  lemma SameFirst(before: seq<Process>, after: seq<Process>)
    requires |before| == 1 && |after| == 2 && after[..1] == before
    ensures after[0] == before[0]
  {
    assert after[..1][0] == after[0];
  }

  lemma AcceptedOne(v: Stub)
    ensures P.AcceptedEntries(FirstSent(v).calls) == [P.Entry(0, v)]
  {
    var calls := FirstSent(v).calls;
    assert calls[..0] == [];
  }
}

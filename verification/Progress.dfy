/** Progress of the composed system: a scan blocked on the full put queue, the batcher and the
    writer cannot hold each other up, and a running process can always catch up. */
module Progress {
  import opened Checkpoint
  import opened Cluster
  import opened Watcher
  import opened Replication
  import opened EndToEnd
  import P = Pipeline

  /** A step that brings the process nearer to an empty sink and a finished scan. */
  ghost predicate Working(log: Log, p: Process, step: Step) {
    && CanStep(log, p, step)
    && (step.Examine? || step.EndScan? || (step.Sink? && P.Progress(p.pipe, step.a)))
  }

  /** Rows still to look at, each worth more than the six stages a message goes through. */
  function Work(p: Process): nat {
    P.Measure(p.pipe) +
    match p.scan
    case None => 0
    case Some(sc) => if sc.next <= |sc.jobs| then 1 + 7 * (|sc.jobs| - sc.next) else 0
  }

  ghost predicate Quiet(p: Process) {
    p.scan.None? && P.InPipe(p.pipe) == []
  }

  lemma PipeInvariant(pipe: P.Pipe<Stub>)
    requires Reachable(pipe)
    ensures P.Inv(pipe)
  {
    var acts :| P.Run(true, acts) == Some(pipe);
    P.RunKeepsInv(true, acts);
  }

  /** No deadlock: unless it is quiet, a running process always has a step to work on. */
  lemma WorkIsPossible(log: Log, p: Process) returns (step: Step)
    requires Sound(log, p) && p.alive && !Quiet(p)
    ensures Working(log, p, step)
  {
    PipeInvariant(p.pipe);
    if P.InPipe(p.pipe) != [] {
      var a := P.NoDeadlock(p.pipe);
      step := Sink(a);
    } else if p.scan.value.next < |p.scan.value.jobs| {
      step := Examine;
    } else {
      step := EndScan;
    }
  }

  lemma PutCosts(pipe: P.Pipe<Stub>, v: Stub)
    requires P.Enabled(pipe, P.Put(v))
    ensures P.Measure(P.Apply(true, pipe, P.Put(v))) == P.Measure(pipe) + 6
  {
  }

  /** Every working step, whichever goroutine takes it, leaves less work. */
  lemma WorkFalls(log: Log, p: Process, step: Step)
    requires Sound(log, p) && Working(log, p, step)
    ensures Work(DoStep(log, p, step)) < Work(p)
  {
    match step
    case Examine =>
      var job := p.scan.value.jobs[p.scan.value.next];
      if job.index > p.cursor { PutCosts(p.pipe, job); }
    case Sink(a) =>
      PipeInvariant(p.pipe);
      P.MeasureFalls(true, p.pipe, a);
    case _ =>
  }

  /** The step starts a scan: a list answer arrives that is not skipped. */
  ghost predicate StartsScan(p: Process, step: Step) {
    step.Listed? && step.lastIndex != p.wait
  }

  /** Every other step of a process, idle ticks and skipped answers included, leaves the work
      as it is. */
  lemma OtherStepsKeepWork(log: Log, p: Process, step: Step)
    requires Sound(log, p) && CanStep(log, p, step) && !Working(log, p, step) && !StartsScan(p, step)
    ensures Work(DoStep(log, p, step)) == Work(p)
  {
  }

  /** How much the action works on process i. */
  ghost function WorkDone(s: System, a: Action, i: nat): nat {
    if i < |s.processes| && a.Local? && a.who == i && Working(s.log, s.processes[i], a.step) then 1 else 0
  }

  lemma ActionKeepsWork(s: System, a: Action, i: nat)
    requires AllSound(s) && CanAct(s, a) && i < |s.processes|
    requires a.Local? && a.who == i ==> !StartsScan(s.processes[i], a.step)
    ensures i < |Act(s, a).processes|
    ensures Work(Act(s, a).processes[i]) + WorkDone(s, a, i) <= Work(s.processes[i])
  {
    var p := s.processes[i];
    assert Sound(s.log, p);
    if a.Local? && a.who == i {
      if Working(s.log, p, a.step) { WorkFalls(s.log, p, a.step); } else { OtherStepsKeepWork(s.log, p, a.step); }
    }
  }

  /** How many of the actions from the n-th on worked on process i. */
  ghost function Worked(actions: seq<Action>, n: nat, i: nat): nat {
    if |actions| <= n then 0 else
    var init := actions[..|actions| - 1];
    Worked(init, n, i) +
    (if Run(init).Some? then WorkDone(Run(init).value, actions[|actions| - 1], i) else 0)
  }

  /** From the n-th action on, no answer starts a scan of process i. */
  ghost predicate NoNewScan(actions: seq<Action>, n: nat, i: nat) {
    forall k :: n <= k < |actions| && actions[k].Local? && actions[k].who == i &&
                Run(actions[..k]).Some? && i < |Run(actions[..k]).value.processes| ==>
      !StartsScan(Run(actions[..k]).value.processes[i], actions[k].step)
  }

  lemma NoNewScanPrefix(actions: seq<Action>, n: nat, i: nat)
    requires actions != [] && NoNewScan(actions, n, i)
    ensures NoNewScan(actions[..|actions| - 1], n, i)
  {
    var init := actions[..|actions| - 1];
    forall k | n <= k < |init| && init[k].Local? && init[k].who == i &&
               Run(init[..k]).Some? && i < |Run(init[..k]).value.processes|
      ensures !StartsScan(Run(init[..k]).value.processes[i], init[k].step)
    {
      assert init[..k] == actions[..k] && init[k] == actions[k];
    }
  }

  /** In every run, however the actions of all processes interleave: until its next scan starts,
      process i takes at most Work(p) working steps. Since it can only stop working when it is
      quiet (`WorkIsPossible`), a scan under way ends and the sink empties within that many. */
  lemma {:induction false} BoundedWork(actions: seq<Action>, n: nat, i: nat)
    requires Run(actions).Some? && n <= |actions| && NoNewScan(actions, n, i)
    ensures Run(actions[..n]).Some?
    ensures i < |Run(actions[..n]).value.processes| ==>
              i < |Run(actions).value.processes| &&
              Work(Run(actions).value.processes[i]) + Worked(actions, n, i) <=
              Work(Run(actions[..n]).value.processes[i])
  {
    if n == |actions| {
      assert actions[..n] == actions;
    } else {
      var init, a := actions[..|actions| - 1], actions[|actions| - 1];
      assert init[..n] == actions[..n] && actions[..|init|] == init;
      NoNewScanPrefix(actions, n, i);
      BoundedWork(init, n, i);
      RunKeepsInvariants(init);
      if i < |Run(init).value.processes| {
        assert a.Local? && a.who == i ==> !StartsScan(Run(init).value.processes[i], a.step);
        ActionKeepsWork(Run(init).value, a, i);
      }
    }
  }

  // ---- catching up ----

  /** The first run continued by steps of process i only, none of them a crash. */
  ghost predicate ContinuedBy(actions: seq<Action>, longer: seq<Action>, i: nat) {
    && actions <= longer
    && forall k :: |actions| <= k < |longer| ==> longer[k].Local? && longer[k].who == i && !longer[k].step.Crash?
  }

  lemma Continue(actions: seq<Action>, i: nat, step: Step) returns (longer: seq<Action>)
    requires Run(actions).Some? && i < |Run(actions).value.processes|
    requires CanAct(Run(actions).value, Local(i, step)) && !step.Crash?
    ensures ContinuedBy(actions, longer, i) && Run(longer).Some?
    ensures var s, t := Run(actions).value, Run(longer).value;
            && t.log == s.log
            && t.processes == s.processes[i := DoStep(s.log, s.processes[i], step)]
            && OnlyMoved(s, t, i)
    ensures Crashes(longer) == Crashes(actions)
  {
    var s;
    longer, s := Extend(actions, Run(actions).value, Local(i, step));
    longer := actions + [Local(i, step)];
    assert longer[..|actions|] == actions;
  }

  /** An answer at this LastIndex has been dealt with. */
  ghost predicate Dealt(p: Process, lastIndex: nat) {
    exists k :: 0 <= k < |p.replies| && p.replies[k].Listing? && p.replies[k].lastIndex == lastIndex
  }

  /** It has arrived: dealt with or being scanned. */
  ghost predicate Arrived(p: Process, lastIndex: nat) {
    Dealt(p, lastIndex) || (p.scan.Some? && p.scan.value.lastIndex == lastIndex)
  }

  lemma DealtNext(p: Process, q: Process, r: Reply, lastIndex: nat)
    requires q.replies == p.replies + [r]
    ensures Dealt(q, lastIndex) <==> Dealt(p, lastIndex) || (r.Listing? && r.lastIndex == lastIndex)
  {
    assert q.replies[|p.replies|] == r;
    if Dealt(p, lastIndex) {
      var k :| 0 <= k < |p.replies| && p.replies[k].Listing? && p.replies[k].lastIndex == lastIndex;
      assert q.replies[k] == p.replies[k];
    }
  }

  lemma KeepsArrived(log: Log, p: Process, step: Step, lastIndex: nat)
    requires Working(log, p, step) && Arrived(p, lastIndex)
    ensures Arrived(DoStep(log, p, step), lastIndex)
  {
    if step.EndScan? {
      DealtNext(p, DoStep(log, p, step), Listing(p.scan.value.lastIndex, p.scan.value.jobs), lastIndex);
    }
  }

  lemma ListedArrives(log: Log, p: Process, lastIndex: nat, jobs: seq<Stub>)
    requires CanStep(log, p, Listed(lastIndex, jobs))
    ensures Arrived(DoStep(log, p, Listed(lastIndex, jobs)), lastIndex)
  {
    if lastIndex == p.wait {
      DealtNext(p, DoStep(log, p, Listed(lastIndex, jobs)), Listing(lastIndex, jobs), lastIndex);
    }
  }

  /** Only process i differs, and it is still running. */
  ghost predicate OnlyMoved(s: System, t: System, i: nat) {
    && t.log == s.log && t.kv == s.kv && t.landing == s.landing
    && |t.processes| == |s.processes| && i < |s.processes|
    && (forall j :: 0 <= j < |s.processes| && j != i ==> t.processes[j] == s.processes[j])
    && t.processes[i].alive == s.processes[i].alive
  }

  /** From every reachable state a running process can finish its scan and empty its sink. */
  lemma {:induction false} CanBecomeQuiet(actions: seq<Action>, i: nat, lastIndex: nat) returns (longer: seq<Action>)
    requires Run(actions).Some? && i < |Run(actions).value.processes| && Run(actions).value.processes[i].alive
    ensures ContinuedBy(actions, longer, i) && Run(longer).Some? && Crashes(longer) == Crashes(actions)
    ensures OnlyMoved(Run(actions).value, Run(longer).value, i)
    ensures Quiet(Run(longer).value.processes[i])
    ensures Arrived(Run(actions).value.processes[i], lastIndex) ==> Dealt(Run(longer).value.processes[i], lastIndex)
    decreases Work(Run(actions).value.processes[i])
  {
    var s := Run(actions).value;
    var p := s.processes[i];
    RunKeepsInvariants(actions);
    assert Sound(s.log, p);
    if Quiet(p) {
      longer := actions;
    } else {
      var step := WorkIsPossible(s.log, p);
      WorkFalls(s.log, p, step);
      if Arrived(p, lastIndex) { KeepsArrived(s.log, p, step, lastIndex); }
      assert DoStep(s.log, p, step).alive;
      var next := Continue(actions, i, step);
      longer := CanBecomeQuiet(next, i, lastIndex);
      MovedTwice(s, Run(next).value, Run(longer).value, i);
    }
  }

  lemma MovedTwice(s: System, t: System, u: System, i: nat)
    requires OnlyMoved(s, t, i) && OnlyMoved(t, u, i)
    ensures OnlyMoved(s, u, i)
  {
  }

  lemma {:induction false} Listable(live: map<string, nat>) returns (jobs: seq<Stub>)
    ensures Lists(jobs, live)
    decreases |live|
  {
    if live == map[] {
      jobs := [];
    } else {
      var id :| id in live;
      var rest := live - {id};
      assert live.Keys == rest.Keys + {id};
      var others := Listable(rest);
      jobs := others + [Stub(id, live[id])];
      ListsOneMore(others, rest, id, live[id], live);
    }
  }

  lemma ListsOneMore(others: seq<Stub>, rest: map<string, nat>, id: string, index: nat, live: map<string, nat>)
    requires Lists(others, rest) && id !in rest && live == rest[id := index]
    ensures Lists(others + [Stub(id, index)], live)
  {
    var jobs := others + [Stub(id, index)];
    forall x | x in live ensures Stub(x, live[x]) in jobs {
      if x == id {
        assert jobs[|others|] == Stub(id, index);
      } else {
        assert Stub(x, rest[x]) in others;
      }
    }
  }

  /** From every reachable state, however many processes crashed or run besides it, a running
      process can reach a state, with no step but its own, in which it has dealt with an answer
      at any index, stale or not, and has emptied its sink: nothing that happened before can
      trap it. */
  lemma {:induction false} CanCatchUp(actions: seq<Action>, i: nat, shown: nat) returns (longer: seq<Action>)
    requires Run(actions).Some? && i < |Run(actions).value.processes| && Run(actions).value.processes[i].alive
    requires shown <= |Run(actions).value.log|
    ensures ContinuedBy(actions, longer, i) && Run(longer).Some? && Crashes(longer) == Crashes(actions)
    ensures OnlyMoved(Run(actions).value, Run(longer).value, i)
    ensures Quiet(Run(longer).value.processes[i])
    ensures Dealt(Run(longer).value.processes[i], shown)
  {
    var quiet := CanBecomeQuiet(actions, i, 0);
    var s := Run(quiet).value;
    var jobs := Listable(Live(s.log, shown));
    ListedArrives(s.log, s.processes[i], shown, jobs);
    var listed := Continue(quiet, i, Listed(shown, jobs));
    longer := CanBecomeQuiet(listed, i, shown);
    MovedTwice(s, Run(listed).value, Run(longer).value, i);
    MovedTwice(Run(actions).value, s, Run(longer).value, i);
  }

  lemma {:induction false} InsideOfQuiet(ps: seq<Process>)
    requires forall j :: 0 <= j < |ps| && ps[j].alive ==> P.InPipe(ps[j].pipe) == []
    ensures |Inside(ps, true)| == 0
  {
    if ps != [] { InsideOfQuiet(ps[1..]); }
  }

  /** So a sole running process can always bring delivery up to date: all versions live now
      except at most 2020 per crash have then been sent. */
  lemma {:induction false} SoleLeaderDelivers(actions: seq<Action>, i: nat, shown: nat) returns (longer: seq<Action>)
    requires Run(actions).Some? && i < |Run(actions).value.processes|
    requires forall j :: 0 <= j < |Run(actions).value.processes| ==> (Run(actions).value.processes[j].alive <==> j == i)
    requires ShowsAll(Run(actions).value.log, shown)
    ensures ContinuedBy(actions, longer, i) && Run(longer).Some?
    ensures var t := Run(longer).value;
            t.log == Run(actions).value.log && |NeverSent(t, |t.log|)| <= 2020 * Crashes(actions)
  {
    longer := CanCatchUp(actions, i, shown);
    var t := Run(longer).value;
    InsideOfQuiet(t.processes);
    var p := t.processes[i];
    var k :| 0 <= k < |p.replies| && p.replies[k].Listing? && p.replies[k].lastIndex == shown;
    CaughtUp(longer, i, k);
  }
}

/** The loss bound is reached: for every number k of crashes there are runs after which 2020 k
    live versions lie below the checkpoint and were never sent. Each round commits 2020 new
    objects; a leader puts them all, checkpoints them and crashes with its sink full. */
module LossExtent {
  import opened Checkpoint
  import opened Cluster
  import opened Watcher
  import opened Replication
  import opened EndToEnd
  import opened Progress
  import P = Pipeline

  // ---- filling a sink ----

  /** Only full batches so far, and the writer is not retrying. */
  ghost predicate AllFull(pipe: P.Pipe<Stub>) {
    && (forall k :: 0 <= k < |pipe.outgoing| ==> |pipe.outgoing[k]| == P.BATCH_SIZE)
    && (forall k :: 0 <= k < |pipe.batchCh| ==> |pipe.batchCh[k]| == P.BATCH_SIZE)
    && (pipe.writer.Calling? ==> |pipe.writer.entries| == P.BATCH_SIZE)
    && !pipe.writer.Retrying?
  }

  /** Nothing moves on unless a request returns or a tick flushes, and no request has returned. */
  ghost predicate Stuffed(pipe: P.Pipe<Stub>) {
    && AllFull(pipe) && pipe.attempted == []
    && !P.Enabled(pipe, P.Receive) && !P.Enabled(pipe, P.SendBatch) && !P.Enabled(pipe, P.Take)
  }

  lemma {:induction false} FullLength(bs: seq<seq<Stub>>)
    requires forall k :: 0 <= k < |bs| ==> |bs[k]| == P.BATCH_SIZE
    ensures |P.Flatten(bs)| == P.BATCH_SIZE * |bs|
  {
    if bs != [] { FullLength(bs[1..]); }
  }

  /** A stuffed sink accepts a Put as long as it holds fewer than 2020 messages. */
  lemma RoomBelowBound(pipe: P.Pipe<Stub>, v: Stub)
    requires P.Inv(pipe) && Stuffed(pipe) && |pipe.puts| < 2020
    ensures P.Enabled(pipe, P.Put(v))
  {
    P.Occupancy(pipe);
    FullLength(pipe.batchCh);
    FullLength(pipe.outgoing);
  }

  /** The steps used to fill a sink: none attempts or flushes anything. */
  ghost predicate Fills(a: P.Act<Stub>) {
    a.Put? || a.Receive? || a.SendBatch? || a.Take?
  }

  lemma FillingKeepsFull(pipe: P.Pipe<Stub>, a: P.Act<Stub>)
    requires AllFull(pipe) && P.Sized(pipe) && P.Enabled(pipe, a) && Fills(a)
    ensures AllFull(P.Apply(true, pipe, a)) && P.Apply(true, pipe, a).attempted == pipe.attempted
  {
  }

  /** From s to t process i changed only its pipe, and there only where the messages are. */
  ghost predicate OnlyPipeMoved(s: System, t: System, i: nat) {
    && OnlyMoved(s, t, i)
    && t.processes[i] == s.processes[i].(pipe := t.processes[i].pipe)
    && t.processes[i].pipe.puts == s.processes[i].pipe.puts
  }

  lemma SettlingStep(pipe: P.Pipe<Stub>, a: P.Act<Stub>)
    requires P.Inv(pipe) && AllFull(pipe) && P.Enabled(pipe, a) && Fills(a) && !a.Put?
    ensures var q := P.Apply(true, pipe, a);
            AllFull(q) && q.attempted == pipe.attempted && q.puts == pipe.puts && P.Measure(q) < P.Measure(pipe)
  {
    FillingKeepsFull(pipe, a);
    P.MeasureFalls(true, pipe, a);
    SinkKeepsPuts(pipe, a);
  }

  /** Let the batcher and the writer move on until they are blocked. */
  lemma {:induction false} Settle(actions: seq<Action>, i: nat) returns (longer: seq<Action>)
    requires Run(actions).Some? && i < |Run(actions).value.processes| && Run(actions).value.processes[i].alive
    requires AllFull(Run(actions).value.processes[i].pipe) && Run(actions).value.processes[i].pipe.attempted == []
    ensures Run(longer).Some? && Crashes(longer) == Crashes(actions)
    ensures OnlyPipeMoved(Run(actions).value, Run(longer).value, i)
    ensures Stuffed(Run(longer).value.processes[i].pipe)
    decreases P.Measure(Run(actions).value.processes[i].pipe)
  {
    var s := Run(actions).value;
    var pipe := s.processes[i].pipe;
    RunKeepsInvariants(actions);
    assert Sound(s.log, s.processes[i]);
    PipeInvariant(pipe);
    if Stuffed(pipe) {
      longer := actions;
    } else {
      var a := if P.Enabled(pipe, P.Take) then P.Take else
               if P.Enabled(pipe, P.SendBatch) then P.SendBatch else P.Receive;
      assert P.Enabled(pipe, a);
      SettlingStep(pipe, a);
      var next := Continue(actions, i, Sink(a));
      longer := Settle(next, i);
      MovedTwice(s, Run(next).value, Run(longer).value, i);
    }
  }

  // ---- scanning into a sink that never sends ----

  /** A leader in its first scan, with at most 2020 rows to hand over and nothing attempted. */
  ghost predicate Filling(p: Process) {
    && p.alive && p.scan.Some? && p.replies == []
    && |Above(p.scan.value.jobs, p.cursor)| <= 2020
    && Stuffed(p.pipe)
  }

  /** Process i only got on with its scan. */
  ghost predicate OnlyScanned(s: System, t: System, i: nat) {
    && OnlyMoved(s, t, i)
    && var p, q := s.processes[i], t.processes[i];
       && p.scan.Some? && q.scan.Some?
       && q.scan.value == p.scan.value.(next := q.scan.value.next)
       && q == p.(scan := q.scan, newMax := q.newMax, pipe := q.pipe)
  }

  lemma ScannedTwice(s: System, t: System, u: System, i: nat)
    requires OnlyScanned(s, t, i) && OnlyScanned(t, u, i)
    ensures OnlyScanned(s, u, i)
  {
  }

  lemma RoomForRow(log: Log, p: Process)
    requires Sound(log, p) && Filling(p) && p.scan.value.next < |p.scan.value.jobs|
    ensures CanStep(log, p, Examine)
  {
    var sc := p.scan.value;
    PipeInvariant(p.pipe);
    if sc.jobs[sc.next].index > p.cursor {
      assert p.pipe.puts == Above(sc.jobs[..sc.next], p.cursor);
      ScanNextRow(sc.jobs, sc.next, p.cursor);
      AbovePrefix(sc.jobs, sc.next + 1, p.cursor);
      RoomBelowBound(p.pipe, sc.jobs[sc.next]);
    }
  }

  /** Look at one row and let the sink settle again. */
  lemma {:induction false} FillRow(actions: seq<Action>, i: nat) returns (longer: seq<Action>)
    requires Run(actions).Some? && i < |Run(actions).value.processes| && Filling(Run(actions).value.processes[i])
    requires Run(actions).value.processes[i].scan.value.next < |Run(actions).value.processes[i].scan.value.jobs|
    ensures Run(longer).Some? && Crashes(longer) == Crashes(actions)
    ensures OnlyScanned(Run(actions).value, Run(longer).value, i) && Filling(Run(longer).value.processes[i])
    ensures Run(longer).value.processes[i].scan.value.next == Run(actions).value.processes[i].scan.value.next + 1
  {
    var s := Run(actions).value;
    var p := s.processes[i];
    RunKeepsInvariants(actions);
    assert Sound(s.log, p);
    RoomForRow(s.log, p);
    var job := p.scan.value.jobs[p.scan.value.next];
    PipeInvariant(p.pipe);
    if job.index > p.cursor { FillingKeepsFull(p.pipe, P.Put(job)); }
    var next := Continue(actions, i, Examine);
    longer := Settle(next, i);
  }

  lemma {:induction false} FillScan(actions: seq<Action>, i: nat) returns (longer: seq<Action>)
    requires Run(actions).Some? && i < |Run(actions).value.processes| && Filling(Run(actions).value.processes[i])
    ensures Run(longer).Some? && Crashes(longer) == Crashes(actions)
    ensures OnlyScanned(Run(actions).value, Run(longer).value, i) && Filling(Run(longer).value.processes[i])
    ensures var sc := Run(longer).value.processes[i].scan.value; sc.next == |sc.jobs|
    decreases |Run(actions).value.processes[i].scan.value.jobs| - Run(actions).value.processes[i].scan.value.next
  {
    var s := Run(actions).value;
    var sc := s.processes[i].scan.value;
    RunKeepsInvariants(actions);
    assert Sound(s.log, s.processes[i]);
    if sc.next == |sc.jobs| {
      longer := actions;
    } else {
      var next := FillRow(actions, i);
      longer := FillScan(next, i);
      ScannedTwice(s, Run(next).value, Run(longer).value, i);
    }
  }

  // ---- waves of new objects ----

  /** Every commit creates 2020 objects that no other commit touches. */
  ghost predicate Waves(commits: Log) {
    && (forall a :: 0 <= a < |commits| ==> |commits[a]| == 2020)
    && (forall a, id :: 0 <= a < |commits| && id in commits[a] ==> commits[a][id].Upsert?)
    && (forall a, b, id :: 0 <= a < b < |commits| && id in commits[a] ==> id !in commits[b])
  }

  lemma LiveAfterWave(commits: Log, k: nat)
    requires Waves(commits) && k < |commits|
    ensures Live(commits[..k + 1], k) == Live(commits[..k], k)
    ensures Live(commits[..k + 1], k + 1) == Touch(Live(commits[..k], k), commits[k], k + 1)
    ensures Live(commits[..k], k).Keys !! commits[k].Keys
  {
    var log := commits[..k];
    assert commits[..k + 1] == log + [commits[k]];
    LiveOfPrefix(log, [commits[k]], k);
    forall id | id in Live(log, k) ensures id !in commits[k] {
      LiveIsCurrent(log, k, id, Live(log, k)[id]);
    }
  }

  lemma TouchAdds(live: map<string, nat>, commit: Commit, index: nat)
    requires live.Keys !! commit.Keys && forall id :: id in commit ==> commit[id].Upsert?
    ensures |Touch(live, commit, index)| == |live| + |commit|
  {
    assert Touch(live, commit, index).Keys == live.Keys + commit.Keys;
    assert |live.Keys + commit.Keys| == |live.Keys| + |commit.Keys|;
  }

  lemma WaveAdds(commits: Log, k: nat)
    requires Waves(commits) && k < |commits|
    ensures |Live(commits[..k + 1], k + 1)| == |Live(commits[..k], k)| + 2020
  {
    LiveAfterWave(commits, k);
    TouchAdds(Live(commits[..k], k), commits[k], k + 1);
  }

  lemma NothingLiveAtFirst(commits: Log)
    ensures |Live(commits[..0], 0)| == 0
  {
    assert Live([], 0) == map[];
    assert commits[..0] == [];
  }

  lemma {:induction false} LiveOfWaves(commits: Log, k: nat)
    requires Waves(commits) && k <= |commits|
    ensures |Live(commits[..k], k)| == 2020 * k
  {
    if k == 0 {
      NothingLiveAtFirst(commits);
    } else {
      var j: nat := k - 1;
      LiveOfWaves(commits, j);
      WaveAdds(commits, j);
      assert |Live(commits[..j + 1], j + 1)| == 2020 * (j + 1);
    }
  }

  lemma {:induction false} DistinctInSet(s: seq<Stub>, xs: set<Stub>)
    requires Distinct(s) && forall v :: v in s ==> v in xs
    ensures |s| <= |xs|
  {
    if s != [] {
      var init, last := s[..|s| - 1], s[|s| - 1];
      DistinctInSet(init, xs - {last});
    }
  }

  ghost function Stubs(live: map<string, nat>): set<Stub> {
    set id | id in live :: Stub(id, live[id])
  }

  lemma {:induction false} StubsSize(live: map<string, nat>)
    ensures |Stubs(live)| == |live|
    decreases |live|
  {
    if live == map[] {
      assert Stubs(live) == {};
    } else {
      var id :| id in live;
      var rest := live - {id};
      assert live.Keys == rest.Keys + {id};
      StubsSize(rest);
      assert Stubs(live) == Stubs(rest) + {Stub(id, live[id])};
    }
  }

  /** Exactly the objects of the newest wave are above cursor k. */
  lemma WaveIsNewest(commits: Log, k: nat, id: string)
    requires Waves(commits) && k < |commits| && id in Live(commits[..k + 1], k + 1)
    ensures Live(commits[..k + 1], k + 1)[id] == k + 1 || Live(commits[..k + 1], k + 1)[id] <= k
    ensures Live(commits[..k + 1], k + 1)[id] > k ==> id in commits[k]
  {
    LiveBounds(commits[..k + 1], k + 1, id);
    LiveAfterWave(commits, k);
    if id !in commits[k] { LiveBounds(commits[..k], k, id); }
  }

  lemma WaveRows(commits: Log, k: nat, jobs: seq<Stub>)
    requires Waves(commits) && k < |commits| && Lists(jobs, Live(commits[..k + 1], k + 1))
    ensures |Above(jobs, k)| <= 2020
  {
    var wave := map id | id in commits[k] :: k + 1;
    forall v | v in Above(jobs, k) ensures v in Stubs(wave) {
      AboveMember(jobs, k, v);
      WaveIsNewest(commits, k, v.id);
      assert v == Stub(v.id, wave[v.id]);
    }
    AboveDistinct(jobs, k);
    DistinctInSet(Above(jobs, k), Stubs(wave));
    StubsSize(wave);
    assert wave.Keys == commits[k].Keys && |wave| == |wave.Keys|;
  }

  lemma WaveHasObject(commits: Log, k: nat) returns (id: string)
    requires Waves(commits) && k < |commits|
    ensures id in Live(commits[..k + 1], k + 1) && Live(commits[..k + 1], k + 1)[id] == k + 1
  {
    LiveAfterWave(commits, k);
    assert commits[k] != map[] by { assert |commits[k]| == 2020; }
    id :| id in commits[k];
  }

  /** Scanning the list of wave k + 1 from cursor k moves the cursor to k + 1. */
  lemma WaveMaximum(commits: Log, k: nat, jobs: seq<Stub>)
    requires Waves(commits) && k < |commits| && Lists(jobs, Live(commits[..k + 1], k + 1))
    ensures NewMax(jobs, k) == k + 1
  {
    var id := WaveHasObject(commits, k);
    var r :| 0 <= r < |jobs| && jobs[r] == Stub(id, k + 1);
    assert jobs[r].index <= NewMax(jobs, k);
    forall j | 0 <= j < |jobs| ensures jobs[j].index <= k + 1 {
      WaveIsNewest(commits, k, jobs[j].id);
    }
  }

  // ---- one round ----

  /** After k rounds: k commits, checkpoint k, every process crashed without sending anything. */
  ghost predicate AfterRounds(s: System, commits: Log, k: nat) {
    && k <= |commits| && s.log == commits[..k]
    && RestoredCursor(s.kv) == k && s.landing == multiset{}
    && forall i :: 0 <= i < |s.processes| ==> !s.processes[i].alive && s.processes[i].pipe.attempted == []
  }

  /** Every process but the last crashed without sending anything. */
  ghost predicate OthersGone(s: System) {
    && s.processes != []
    && forall i :: 0 <= i < |s.processes| - 1 ==> !s.processes[i].alive && s.processes[i].pipe.attempted == []
  }

  lemma NextLog(commits: Log, k: nat)
    requires k < |commits|
    ensures commits[..k] + [commits[k]] == commits[..k + 1]
  {
  }

  lemma {:induction false} LeaderRestores(actions: seq<Action>, s: System, k: nat)
      returns (longer: seq<Action>, t: System)
    requires Run(actions) == Some(s) && s.landing == multiset{} && RestoredCursor(s.kv) == k
    requires forall i :: 0 <= i < |s.processes| ==> !s.processes[i].alive && s.processes[i].pipe.attempted == []
    ensures Run(longer) == Some(t) && Crashes(longer) == Crashes(actions)
    ensures OthersGone(t) && t.log == s.log && t.landing == multiset{}
    ensures t.processes[|t.processes| - 1] == Fresh(k)
  {
    longer, t := Extend(actions, s, Lead(s.kv));
  }

  /** The next wave is committed and a leader restores from the key. */
  lemma {:induction false} WaveCommitted(actions: seq<Action>, commits: Log, k: nat)
      returns (longer: seq<Action>, t: System)
    requires Run(actions).Some? && AfterRounds(Run(actions).value, commits, k) && k < |commits|
    ensures Run(longer) == Some(t) && Crashes(longer) == Crashes(actions)
    ensures OthersGone(t) && t.log == commits[..k + 1] && t.landing == multiset{}
    ensures t.processes[|t.processes| - 1] == Fresh(k)
  {
    var s := Run(actions).value;
    longer, t := Extend(actions, s, Committed(commits[k]));
    NextLog(commits, k);
    longer, t := LeaderRestores(longer, t, k);
  }

  /** The last process takes a step. */
  lemma {:induction false} LastSteps(actions: seq<Action>, s: System, step: Step)
      returns (longer: seq<Action>, t: System)
    requires Run(actions) == Some(s) && OthersGone(s) && !step.Crash?
    requires CanStep(s.log, s.processes[|s.processes| - 1], step)
    ensures Run(longer) == Some(t) && Crashes(longer) == Crashes(actions)
    ensures OthersGone(t) && t.log == s.log && t.landing == s.landing && |t.processes| == |s.processes|
    ensures t.processes[|t.processes| - 1] == DoStep(s.log, s.processes[|s.processes| - 1], step)
  {
    longer, t := Extend(actions, s, Local(|s.processes| - 1, step));
  }

  lemma FreshLists(log: Log, k: nat) returns (jobs: seq<Stub>)
    requires |log| == k + 1
    ensures Lists(jobs, Live(log, k + 1)) && CanStep(log, Fresh(k), Listed(k + 1, jobs))
    ensures DoStep(log, Fresh(k), Listed(k + 1, jobs)) == Fresh(k).(scan := Some(Scanning(k + 1, jobs, 0)))
  {
    jobs := Listable(Live(log, k + 1));
  }

  /** It receives the list showing everything. */
  lemma {:induction false} WaveListed(actions: seq<Action>, s: System, k: nat)
      returns (longer: seq<Action>, t: System, jobs: seq<Stub>)
    requires Run(actions) == Some(s) && OthersGone(s) && s.landing == multiset{} && |s.log| == k + 1
    requires s.processes[|s.processes| - 1] == Fresh(k)
    ensures Run(longer) == Some(t) && Crashes(longer) == Crashes(actions)
    ensures OthersGone(t) && t.log == s.log && t.landing == multiset{} && Lists(jobs, Live(t.log, k + 1))
    ensures t.processes[|t.processes| - 1] == Fresh(k).(scan := Some(Scanning(k + 1, jobs, 0)))
  {
    jobs := FreshLists(s.log, k);
    longer, t := LastSteps(actions, s, Listed(k + 1, jobs));
  }

  lemma FreshIsFilling(k: nat, jobs: seq<Stub>)
    requires |Above(jobs, k)| <= 2020
    ensures Filling(Fresh(k).(scan := Some(Scanning(k + 1, jobs, 0))))
  {
  }

  /** It scans the list into its sink and advances its cursor. */
  lemma {:induction false} ListScanned(actions: seq<Action>, s: System, k: nat, jobs: seq<Stub>)
      returns (longer: seq<Action>, t: System)
    requires Run(actions) == Some(s) && OthersGone(s) && s.landing == multiset{}
    requires |Above(jobs, k)| <= 2020 && NewMax(jobs, k) == k + 1
    requires s.processes[|s.processes| - 1] == Fresh(k).(scan := Some(Scanning(k + 1, jobs, 0)))
    ensures Run(longer) == Some(t) && Crashes(longer) == Crashes(actions)
    ensures OthersGone(t) && t.log == s.log && t.landing == multiset{}
    ensures Ready(t.processes[|t.processes| - 1], k + 1)
  {
    var i := |s.processes| - 1;
    FreshIsFilling(k, jobs);
    var filled := FillScan(actions, i);
    ScanEndsAt(filled, i, k + 1);
    longer, t := LastSteps(filled, Run(filled).value, EndScan);
  }

  /** A running process at cursor v, about to save it, that has sent nothing. */
  ghost predicate Ready(p: Process, v: nat) {
    && p.alive && p.cursor == v && p.pipe.attempted == []
    && p.pending.None? && p.slot.None? && !p.writing
  }

  lemma {:induction false} ScanEndsAt(actions: seq<Action>, i: nat, v: nat)
    requires Run(actions).Some? && i < |Run(actions).value.processes|
    requires var p := Run(actions).value.processes[i];
             p.scan.Some? && p.scan.value.next == |p.scan.value.jobs| && NewMax(p.scan.value.jobs, p.cursor) == v
    ensures Run(actions).value.processes[i].newMax == v
  {
    RunKeepsInvariants(actions);
    var s := Run(actions).value;
    var p := s.processes[i];
    assert Sound(s.log, p);
    ExaminedAll(p.scan.value, p.cursor, p.newMax, Polled(p.restored, p.replies).handed, p.pipe.puts);
  }

  /** It saves its cursor and the manager starts the write. */
  lemma {:induction false} SaveCursor(actions: seq<Action>, s: System, v: nat) returns (longer: seq<Action>, t: System)
    requires Run(actions) == Some(s) && OthersGone(s) && s.landing == multiset{}
    requires Ready(s.processes[|s.processes| - 1], v)
    ensures Run(longer) == Some(t) && Crashes(longer) == Crashes(actions)
    ensures OthersGone(t) && t.log == s.log && t.landing == multiset{PrintNat(v)}
    ensures t.processes[|t.processes| - 1].alive && t.processes[|t.processes| - 1].pipe.attempted == []
  {
    var i := |s.processes| - 1;
    longer, t := LastSteps(actions, s, SaveTick);
    longer, t := LastSteps(longer, t, Send);
    longer, t := Extend(longer, t, Checkpoint(i));
  }

  lemma {:induction false} LastCrashes(actions: seq<Action>, s: System) returns (longer: seq<Action>, t: System)
    requires Run(actions) == Some(s) && OthersGone(s)
    requires s.processes[|s.processes| - 1].alive && s.processes[|s.processes| - 1].pipe.attempted == []
    ensures Run(longer) == Some(t) && Crashes(longer) == Crashes(actions) + 1
    ensures t.log == s.log && t.landing == s.landing && t.kv == s.kv
    ensures forall i :: 0 <= i < |t.processes| ==> !t.processes[i].alive && t.processes[i].pipe.attempted == []
  {
    longer, t := Extend(actions, s, Local(|s.processes| - 1, Crash));
  }

  /** The write lands, and the process crashes. */
  lemma {:induction false} LandAndCrash(actions: seq<Action>, s: System, v: nat)
      returns (longer: seq<Action>, t: System)
    requires Run(actions) == Some(s) && OthersGone(s) && s.landing == multiset{PrintNat(v)}
    requires s.processes[|s.processes| - 1].alive && s.processes[|s.processes| - 1].pipe.attempted == []
    ensures Run(longer) == Some(t) && Crashes(longer) == Crashes(actions) + 1
    ensures t.log == s.log && t.landing == multiset{} && t.kv == Found(PrintNat(v))
    ensures forall i :: 0 <= i < |t.processes| ==> !t.processes[i].alive && t.processes[i].pipe.attempted == []
  {
    longer, t := Extend(actions, s, Land(PrintNat(v)));
    longer, t := LastCrashes(longer, t);
  }

  lemma {:induction false} Round(actions: seq<Action>, commits: Log, k: nat) returns (longer: seq<Action>)
    requires Run(actions).Some? && AfterRounds(Run(actions).value, commits, k)
    requires Waves(commits) && k < |commits| < TWO63
    ensures Run(longer).Some? && AfterRounds(Run(longer).value, commits, k + 1)
    ensures Crashes(longer) == Crashes(actions) + 1
  {
    var s, jobs;
    longer, s := WaveCommitted(actions, commits, k);
    longer, s, jobs := WaveListed(longer, s, k);
    WaveRows(commits, k, jobs);
    WaveMaximum(commits, k, jobs);
    longer, s := ListScanned(longer, s, k, jobs);
    longer, s := SaveCursor(longer, s, k + 1);
    longer, s := LandAndCrash(longer, s, k + 1);
    UnsignedRoundTrip(k + 1);
  }

  lemma {:induction false} Rounds(commits: Log, k: nat) returns (actions: seq<Action>)
    requires Waves(commits) && k <= |commits| < TWO63
    ensures Run(actions).Some? && AfterRounds(Run(actions).value, commits, k) && Crashes(actions) == k
  {
    if k == 0 {
      actions := [];
    } else {
      actions := Rounds(commits, k - 1);
      actions := Round(actions, commits, k - 1);
    }
  }

  // ---- the bound is reached ----

  /** For any log of k commits of 2020 new objects each, some run with k crashes leaves exactly
      2020 k live versions below the checkpoint that nobody tried to send, with no process
      running any more. */
  lemma {:induction false} LossBoundReached(commits: Log) returns (actions: seq<Action>)
    requires Waves(commits) && |commits| < TWO63
    ensures Run(actions).Some? && Run(actions).value.log == commits && Crashes(actions) == |commits|
    ensures |Inside(Run(actions).value.processes, true)| == 0
    ensures |NeverSent(Run(actions).value, RestoredCursor(Run(actions).value.kv))| == 2020 * Crashes(actions)
  {
    var k := |commits|;
    assert commits[..k] == commits;
    actions := Rounds(commits, k);
    var s := Run(actions).value;
    InsideOfQuiet(s.processes);
    LiveOfWaves(commits, k);
    StubsSize(Live(s.log, k));
    AllUnsent(s);
  }

  lemma AllUnsent(s: System)
    requires forall i :: 0 <= i < |s.processes| ==> s.processes[i].pipe.attempted == []
    ensures NeverSent(s, |s.log|) == Stubs(Live(s.log, |s.log|))
  {
    var live := Live(s.log, |s.log|);
    forall id | id in live ensures live[id] <= |s.log| && !WasAttempted(s.processes, Stub(id, live[id])) {
      LiveBounds(s.log, |s.log|, id);
    }
    forall x ensures x in NeverSent(s, |s.log|) <==> x in Stubs(live) {
      if x in Stubs(live) { assert x.id in live && x == Stub(x.id, live[x.id]); }
    }
  }

  // ---- such logs exist ----

  function Wave(start: nat, n: nat): Commit {
    if n == 0 then map[] else Wave(start, n - 1)[PrintNat(start + n - 1) := Upsert]
  }

  /** n objects, created under numbers from `start` on as their names. */
  ghost predicate Numbered(commit: Commit, start: nat, n: nat) {
    && |commit| == n
    && forall id :: id in commit ==> commit[id].Upsert? && AllDigits(id) && start <= DigitsValue(id) < start + n
  }

  lemma NumberedNext(commit: Commit, start: nat, n: nat, id: string)
    requires Numbered(commit, start, n) && AllDigits(id) && DigitsValue(id) == start + n
    ensures Numbered(commit[id := Upsert], start, n + 1)
  {
    assert commit[id := Upsert].Keys == commit.Keys + {id};
  }

  lemma {:induction false} WaveIsNumbered(start: nat, n: nat)
    ensures Numbered(Wave(start, n), start, n)
  {
    if n > 0 {
      WaveIsNumbered(start, n - 1);
      PrintedDigits(start + n - 1);
      NumberedNext(Wave(start, n - 1), start, n - 1, PrintNat(start + n - 1));
    }
  }

  lemma {:induction false} WavesExist(k: nat) returns (commits: Log)
    ensures |commits| == k && Waves(commits)
  {
    commits := seq(k, a requires 0 <= a < k => Wave(2020 * a, 2020));
    forall a | 0 <= a < k ensures Numbered(commits[a], 2020 * a, 2020) {
      WaveIsNumbered(2020 * a, 2020);
    }
  }

  /** The bound of `CheckpointLossBound` is reached for every number of crashes (a checkpoint
      holds no index of 2^63 or more, and each round uses one). */
  lemma {:induction false} LossExtentIsExact(k: nat) returns (actions: seq<Action>)
    requires k < TWO63
    ensures Run(actions).Some? && Crashes(actions) == k
    ensures |NeverSent(Run(actions).value, RestoredCursor(Run(actions).value.kv))| ==
            |Inside(Run(actions).value.processes, true)| + 2020 * k
  {
    var commits := WavesExist(k);
    actions := LossBoundReached(commits);
  }
}

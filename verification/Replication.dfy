/** Any number of firehose processes (jobliststub with the SQS sink) against one Nomad log and
    one Consul key. Each leadership incarnation is a process of its own; several may run at
    once, any may crash at any step, and a checkpoint write may fail, or land late, even after
    its writer is gone, and a leader may read a stale value of the key. The state of one process
    is the watcher, the persist goroutine with its capacity-1 channel, and the sink pipe. */
module Replication {
  import opened Checkpoint
  import opened Cluster
  import opened Watcher
  import P = Pipeline

  /** `pending` is the value persistLastChangeTime is blocked sending, `slot` the channel
      content, `issued` the last value the manager wrote (the restore value before that),
      `writing` whether the manager is inside KV().Put. `saved` records all values written and
      `replies` the list answers dealt with. */
  datatype Process = Process(
    alive: bool,
    restored: nat,
    wait: nat,
    cursor: nat,
    newMax: nat,
    scan: Option<Scanning>,
    pending: Option<nat>,
    slot: Option<nat>,
    issued: nat,
    writing: bool,
    saved: seq<nat>,
    replies: seq<Reply>,
    pipe: P.Pipe<Stub>)

  /** `landing` are the checkpoint texts on their way to Consul. */
  datatype System = System(log: Log, processes: seq<Process>, kv: KvRead, landing: multiset<string>)

  /** A step inside one process. */
  datatype Step =
    | Listed(lastIndex: nat, jobs: seq<Stub>)  // a list answer arrives
    | Examine                                  // the scan looks at one row
    | EndScan                                  // the scan is over: advance wait index and cursor
    | SaveTick                                 // the persist goroutine reads the cursor
    | Send                                     // its send completes
    | WriteReturns                             // the manager's KV Put returns, failed or not
    | Sink(a: P.Act<Stub>)                     // a step of the batcher or the writer
    | Crash

  datatype Action =
    | Committed(commit: Commit)
    | Lead(read: KvRead)                       // a process gets the lock and restores from `read`, maybe stale
    | Local(who: nat, step: Step)
    | Checkpoint(who: nat)                     // the manager takes the channel value and starts a Put
    | Land(text: string)                       // a write reaches the key
    | Drop(text: string)                       // a write is lost

  // ---- one process ----

  function Fresh(restored: nat): Process {
    Process(true, restored, restored, restored, restored, None, None, None, restored, false, [], [], P.Start())
  }

  ghost predicate CanStep(log: Log, p: Process, step: Step) {
    p.alive &&
    match step
    case Listed(lastIndex, jobs) =>
      p.scan.None? && lastIndex <= |log| && Lists(jobs, Live(log, lastIndex))
    case Examine =>
      && p.scan.Some? && p.scan.value.next < |p.scan.value.jobs|
      && var job := p.scan.value.jobs[p.scan.value.next];
         job.index > p.cursor ==> P.Enabled(p.pipe, P.Put(job))
    case EndScan => p.scan.Some? && p.scan.value.next == |p.scan.value.jobs|
    case SaveTick => p.pending.None?
    case Send => p.pending.Some? && p.slot.None?
    case WriteReturns => p.writing
    case Sink(a) => !a.Put? && P.Enabled(p.pipe, a)
    case Crash => true
  }

  ghost function DoStep(log: Log, p: Process, step: Step): Process
    requires CanStep(log, p, step)
  {
    match step
    case Listed(lastIndex, jobs) =>
      if lastIndex == p.wait then p.(replies := p.replies + [Listing(lastIndex, jobs)])
      else p.(scan := Some(Scanning(lastIndex, jobs, 0)))
    case Examine =>
      var sc := p.scan.value;
      var job := sc.jobs[sc.next];
      var q := p.(scan := Some(sc.(next := sc.next + 1)));
      if job.index <= p.cursor then q
      else q.(newMax := if job.index > p.newMax then job.index else p.newMax,
              pipe := P.Apply(true, p.pipe, P.Put(job)))
    case EndScan =>
      p.(wait := p.scan.value.lastIndex, cursor := p.newMax, scan := None,
         replies := p.replies + [Listing(p.scan.value.lastIndex, p.scan.value.jobs)])
    case SaveTick => p.(pending := Some(p.cursor))
    case Send => p.(slot := p.pending, pending := None)
    case WriteReturns => p.(writing := false)
    case Sink(a) => p.(pipe := P.Apply(true, p.pipe, a))
    case Crash => p.(alive := false)
  }

  // ---- the system ----

  function Initial(): System {
    System([], [], Missing, multiset{})
  }

  /** Some incarnation has written this text, whether or not it ever reached the key. */
  ghost predicate Written(ps: seq<Process>, text: string) {
    exists i, k :: 0 <= i < |ps| && 0 <= k < |ps[i].saved| && text == PrintNat(ps[i].saved[k])
  }

  /** What a read of the key may return besides its current content: an error, or what the key
      held, or could have held, at any earlier time. */
  ghost predicate Readable(ps: seq<Process>, read: KvRead) {
    read == ReadError || read == Missing || (read.Found? && Written(ps, read.text))
  }

  ghost predicate CanAct(s: System, a: Action) {
    match a
    case Committed(_) => true
    case Lead(read) => read == s.kv || Readable(s.processes, read)
    case Local(who, step) => who < |s.processes| && CanStep(s.log, s.processes[who], step)
    case Checkpoint(who) =>
      && who < |s.processes|
      && s.processes[who].alive && s.processes[who].slot.Some? && !s.processes[who].writing
    case Land(text) => text in s.landing
    case Drop(text) => text in s.landing
  }

  ghost function Act(s: System, a: Action): System
    requires CanAct(s, a)
  {
    match a
    case Committed(commit) => s.(log := s.log + [commit])
    case Lead(read) => s.(processes := s.processes + [Fresh(RestoredCursor(read))])
    case Local(who, step) =>
      s.(processes := s.processes[who := DoStep(s.log, s.processes[who], step)])
    case Checkpoint(who) =>
      var p := s.processes[who];
      var v := p.slot.value;
      s.(processes := s.processes[who := p.(slot := None, issued := v, writing := true, saved := p.saved + [v])],
         landing := s.landing + multiset{PrintNat(v)})
    case Land(text) => s.(kv := Found(text), landing := s.landing - multiset{text})
    case Drop(text) => s.(landing := s.landing - multiset{text})
  }

  /** The state after these actions, None when some action was not possible. */
  ghost function Run(actions: seq<Action>): Option<System> {
    if actions == [] then Some(Initial()) else
    match Run(actions[..|actions| - 1])
    case None => None
    case Some(s) =>
      if CanAct(s, actions[|actions| - 1]) then Some(Act(s, actions[|actions| - 1])) else None
  }

  // ---- safety of a cursor value ----

  /** Some incarnation's watcher has put this version into its sink. */
  ghost predicate Handed(ps: seq<Process>, v: Stub) {
    exists i :: 0 <= i < |ps| && v in ps[i].pipe.puts
  }

  /** Every object live now whose newest version is at or below v has had exactly that
      version handed over. */
  ghost predicate Safe(s: System, v: nat) {
    && v <= |s.log|
    && forall id :: id in Live(s.log, |s.log|) && Live(s.log, |s.log|)[id] <= v ==>
         Handed(s.processes, Stub(id, Live(s.log, |s.log|)[id]))
  }

  // ---- invariants of one process ----

  ghost predicate Reachable(pipe: P.Pipe<Stub>) {
    exists acts :: P.Run(true, acts) == Some(pipe)
  }

  /** restored <= issued <= slot <= pending <= cursor <= newMax, skipping what is empty. */
  ghost predicate Ordered(p: Process) {
    && p.restored <= p.issued
    && p.issued <= (if p.slot.Some? then p.slot.value else p.cursor)
    && (p.slot.Some? ==> p.slot.value <= (if p.pending.Some? then p.pending.value else p.cursor))
    && (p.pending.Some? ==> p.issued <= p.pending.value <= p.cursor)
    && p.cursor <= p.newMax
  }

  /** The values written never decrease, from the restore value on; `issued` is the last one. */
  ghost predicate SavedInOrder(restored: nat, saved: seq<nat>, issued: nat) {
    && issued == (if saved == [] then restored else saved[|saved| - 1])
    && (forall k :: 0 <= k < |saved| ==> restored <= saved[k])
    && (forall a, b :: 0 <= a < b < |saved| ==> saved[a] <= saved[b])
  }

  /** Wait index, cursor and the messages put are what the watcher loop makes of the answers
      dealt with, plus the rows already looked at in the answer being scanned. */
  ghost predicate Watching(log: Log, p: Process) {
    && AllHonest(log, p.replies)
    && var w := Polled(p.restored, p.replies);
       && p.wait == w.wait && p.cursor == w.cursor
       && match p.scan
          case None => p.newMax == p.cursor && p.pipe.puts == w.handed
          case Some(sc) =>
            && sc.lastIndex != p.wait
            && Honest(log, Listing(sc.lastIndex, sc.jobs))
            && Examined(sc, p.cursor, p.newMax, w.handed, p.pipe.puts)
  }

  ghost predicate Examined(sc: Scanning, cursor: nat, newMax: nat, handed: seq<Stub>, puts: seq<Stub>) {
    && sc.next <= |sc.jobs|
    && newMax == NewMax(sc.jobs[..sc.next], cursor)
    && puts == handed + Above(sc.jobs[..sc.next], cursor)
  }

  ghost predicate Sound(log: Log, p: Process) {
    Ordered(p) && SavedInOrder(p.restored, p.saved, p.issued) && Watching(log, p) && Reachable(p.pipe)
  }

  lemma PipeStep(pipe: P.Pipe<Stub>, a: P.Act<Stub>)
    requires Reachable(pipe) && P.Enabled(pipe, a)
    ensures Reachable(P.Apply(true, pipe, a))
  {
    var acts :| P.Run(true, acts) == Some(pipe);
    assert (acts + [a])[..|acts|] == acts;
    assert P.Run(true, acts + [a]) == Some(P.Apply(true, pipe, a));
  }

  lemma SinkKeepsPuts(pipe: P.Pipe<Stub>, a: P.Act<Stub>)
    requires P.Enabled(pipe, a) && !a.Put?
    ensures P.Apply(true, pipe, a).puts == pipe.puts
  {
  }

  lemma ExaminedNext(sc: Scanning, cursor: nat, newMax: nat, handed: seq<Stub>, puts: seq<Stub>)
    requires Examined(sc, cursor, newMax, handed, puts) && sc.next < |sc.jobs|
    ensures var job := sc.jobs[sc.next];
            if job.index <= cursor then Examined(sc.(next := sc.next + 1), cursor, newMax, handed, puts)
            else Examined(sc.(next := sc.next + 1), cursor,
                          if job.index > newMax then job.index else newMax, handed, puts + [job])
  {
    ScanNextRow(sc.jobs, sc.next, cursor);
  }

  lemma {:induction false} ExamineKeepsWatching(log: Log, p: Process)
    requires Watching(log, p) && CanStep(log, p, Examine)
    ensures Watching(log, DoStep(log, p, Examine))
  {
    ExaminedNext(p.scan.value, p.cursor, p.newMax, Polled(p.restored, p.replies).handed, p.pipe.puts);
  }

  lemma ExaminedAll(sc: Scanning, cursor: nat, newMax: nat, handed: seq<Stub>, puts: seq<Stub>)
    requires Examined(sc, cursor, newMax, handed, puts) && sc.next == |sc.jobs|
    ensures newMax == NewMax(sc.jobs, cursor) && puts == handed + Above(sc.jobs, cursor)
  {
    assert sc.jobs[..sc.next] == sc.jobs;
  }

  lemma EndScanKeepsWatching(log: Log, p: Process)
    requires Watching(log, p) && CanStep(log, p, EndScan)
    ensures Watching(log, DoStep(log, p, EndScan))
  {
    var sc := p.scan.value;
    var r := Listing(sc.lastIndex, sc.jobs);
    HonestNext(log, p.replies, r);
    PolledNext(p.restored, p.replies, r);
    ExaminedAll(sc, p.cursor, p.newMax, Polled(p.restored, p.replies).handed, p.pipe.puts);
  }

  lemma ListedKeepsWatching(log: Log, p: Process, lastIndex: nat, jobs: seq<Stub>)
    requires Watching(log, p) && CanStep(log, p, Listed(lastIndex, jobs))
    ensures Watching(log, DoStep(log, p, Listed(lastIndex, jobs)))
  {
    var q := DoStep(log, p, Listed(lastIndex, jobs));
    var r := Listing(lastIndex, jobs);
    HonestNext(log, p.replies, r);
    PolledNext(p.restored, p.replies, r);
  }

  lemma {:induction false} StepKeepsWatching(log: Log, p: Process, step: Step)
    requires Watching(log, p) && CanStep(log, p, step)
    ensures Watching(log, DoStep(log, p, step))
  {
    match step
    case Listed(lastIndex, jobs) => ListedKeepsWatching(log, p, lastIndex, jobs);
    case Examine => ExamineKeepsWatching(log, p);
    case EndScan => EndScanKeepsWatching(log, p);
    case Sink(a) => SinkKeepsPuts(p.pipe, a);
    case _ =>
  }

  lemma StepKeepsOrder(log: Log, p: Process, step: Step)
    requires Ordered(p) && CanStep(log, p, step)
    ensures Ordered(DoStep(log, p, step))
  {
  }

  lemma StepKeepsReachable(log: Log, p: Process, step: Step)
    requires Reachable(p.pipe) && CanStep(log, p, step)
    ensures Reachable(DoStep(log, p, step).pipe)
  {
    match step
    case Examine =>
      var job := p.scan.value.jobs[p.scan.value.next];
      if job.index > p.cursor { PipeStep(p.pipe, P.Put(job)); }
    case Sink(a) => PipeStep(p.pipe, a);
    case _ =>
  }

  lemma StepKeepsSaved(log: Log, p: Process, step: Step)
    requires CanStep(log, p, step)
    ensures var q := DoStep(log, p, step);
            q.restored == p.restored && q.saved == p.saved && q.issued == p.issued
  {
  }

  lemma StepKeepsSound(log: Log, p: Process, step: Step)
    requires Sound(log, p) && CanStep(log, p, step)
    ensures Sound(log, DoStep(log, p, step))
  {
    StepKeepsOrder(log, p, step);
    StepKeepsSaved(log, p, step);
    StepKeepsWatching(log, p, step);
    StepKeepsReachable(log, p, step);
  }

  lemma SoundLater(log: Log, commit: Commit, p: Process)
    requires Sound(log, p)
    ensures Sound(log + [commit], p)
  {
    forall k | 0 <= k < |p.replies| ensures Honest(log + [commit], p.replies[k]) {
      HonestLater(log, commit, p.replies[k]);
    }
    if p.scan.Some? {
      HonestLater(log, commit, Listing(p.scan.value.lastIndex, p.scan.value.jobs));
    }
  }

  // ---- invariants of the system ----

  ghost predicate AllSound(s: System) {
    forall i :: 0 <= i < |s.processes| ==> Sound(s.log, s.processes[i])
  }

  /** Safe at every cursor, in the key, and in every write that may still land. The other
      places a cursor value sits are below the cursor of their process. */
  ghost predicate AllSafe(s: System) {
    && (forall i :: 0 <= i < |s.processes| ==> Safe(s, s.processes[i].cursor))
    && Safe(s, RestoredCursor(s.kv))
    && (forall text :: text in s.landing ==> Safe(s, RestoredCursor(Found(text))))
  }

  lemma SafeBelow(s: System, v: nat, u: nat)
    requires Safe(s, v) && u <= v
    ensures Safe(s, u)
  {
  }

  /** Processes only ever gain Puts. */
  ghost predicate Grown(before: seq<Process>, after: seq<Process>) {
    && |before| <= |after|
    && forall i :: 0 <= i < |before| ==> before[i].pipe.puts <= after[i].pipe.puts
  }

  lemma SafeGrows(s: System, t: System, v: nat)
    requires Safe(s, v) && t.log == s.log && Grown(s.processes, t.processes)
    ensures Safe(t, v)
  {
    forall id | id in Live(s.log, |s.log|) && Live(s.log, |s.log|)[id] <= v
      ensures Handed(t.processes, Stub(id, Live(s.log, |s.log|)[id]))
    {
      var x := Stub(id, Live(s.log, |s.log|)[id]);
      var i :| 0 <= i < |s.processes| && x in s.processes[i].pipe.puts;
      assert x in t.processes[i].pipe.puts;
    }
  }

  /** A new commit only creates versions above every safe value. */
  lemma SafeLater(s: System, commit: Commit, v: nat)
    requires Safe(s, v)
    ensures Safe(s.(log := s.log + [commit]), v)
  {
    var log, later := s.log, s.log + [commit];
    forall id | id in Live(later, |later|) && Live(later, |later|)[id] <= v
      ensures Handed(s.processes, Stub(id, Live(later, |later|)[id]))
    {
      LivePersists(later, |log|, |later|, id);
      LiveOfPrefix(log, [commit], |log|);
    }
  }

  /** The heart of the protocol: when a scan is complete, newMax is safe although the answer
      scanned may be stale and the log may have moved on since. */
  lemma ScanMakesSafe(s: System, i: nat)
    requires i < |s.processes| && Sound(s.log, s.processes[i]) && Safe(s, s.processes[i].cursor)
    requires CanStep(s.log, s.processes[i], EndScan)
    ensures Safe(s, s.processes[i].newMax)
  {
    var p := s.processes[i];
    var sc := p.scan.value;
    assert sc.jobs[..sc.next] == sc.jobs;
    var now := Live(s.log, |s.log|);
    if p.newMax > p.cursor {
      var k :| 0 <= k < |sc.jobs| && sc.jobs[k].index == p.newMax;
      LiveBounds(s.log, sc.lastIndex, sc.jobs[k].id);
      assert p.newMax <= sc.lastIndex;
    }
    forall id | id in now && now[id] <= p.newMax
      ensures Handed(s.processes, Stub(id, now[id]))
    {
      var v := Stub(id, now[id]);
      if now[id] > p.cursor {
        LivePersists(s.log, sc.lastIndex, |s.log|, id);
        AboveMember(sc.jobs, p.cursor, v);
        assert v in p.pipe.puts;
      }
    }
  }

  lemma StepGrowsPuts(log: Log, p: Process, step: Step)
    requires CanStep(log, p, step)
    ensures p.pipe.puts <= DoStep(log, p, step).pipe.puts
  {
    match step
    case Sink(a) => SinkKeepsPuts(p.pipe, a);
    case _ =>
  }

  lemma {:induction false} LocalKeepsSafe(s: System, who: nat, step: Step)
    requires AllSound(s) && AllSafe(s) && CanAct(s, Local(who, step))
    ensures AllSafe(Act(s, Local(who, step)))
  {
    var t := Act(s, Local(who, step));
    var p, q := s.processes[who], t.processes[who];
    StepGrowsPuts(s.log, p, step);
    assert Grown(s.processes, t.processes);
    if step.EndScan? {
      ScanMakesSafe(s, who);
    } else {
      assert q.cursor == p.cursor;
    }
    forall i | 0 <= i < |t.processes| ensures Safe(t, t.processes[i].cursor) {
      SafeGrows(s, t, if i == who then q.cursor else s.processes[i].cursor);
    }
    SafeGrows(s, t, RestoredCursor(s.kv));
    forall text | text in t.landing ensures Safe(t, RestoredCursor(Found(text))) {
      SafeGrows(s, t, RestoredCursor(Found(text)));
    }
  }

  lemma {:induction false} CheckpointKeepsSafe(s: System, who: nat)
    requires AllSound(s) && AllSafe(s) && CanAct(s, Checkpoint(who))
    ensures AllSafe(Act(s, Checkpoint(who)))
  {
    var t := Act(s, Checkpoint(who));
    var p := s.processes[who];
    var v := p.slot.value;
    assert Sound(s.log, p);
    assert Grown(s.processes, t.processes);
    UnsignedRoundTrip(v);
    SafeBelow(s, p.cursor, RestoredCursor(Found(PrintNat(v))));
    forall i | 0 <= i < |t.processes| ensures Safe(t, t.processes[i].cursor) {
      SafeGrows(s, t, s.processes[i].cursor);
    }
    SafeGrows(s, t, RestoredCursor(s.kv));
    forall text | text in t.landing ensures Safe(t, RestoredCursor(Found(text))) {
      SafeGrows(s, t, RestoredCursor(Found(text)));
    }
  }

  lemma SavedBelowCursor(p: Process, k: nat)
    requires Ordered(p) && SavedInOrder(p.restored, p.saved, p.issued) && k < |p.saved|
    ensures p.saved[k] <= p.cursor
  {
    assert p.saved[k] <= p.saved[|p.saved| - 1] == p.issued;
  }

  /** Every text ever written is safe to restore from, however old it is. */
  lemma WrittenIsSafe(s: System, text: string)
    requires AllSound(s) && AllSafe(s) && Written(s.processes, text)
    ensures Safe(s, RestoredCursor(Found(text)))
  {
    var i, k :| 0 <= i < |s.processes| && 0 <= k < |s.processes[i].saved| && text == PrintNat(s.processes[i].saved[k]);
    var p := s.processes[i];
    assert Sound(s.log, p) && Safe(s, p.cursor);
    SavedBelowCursor(p, k);
    UnsignedRoundTrip(p.saved[k]);
    SafeBelow(s, p.cursor, RestoredCursor(Found(text)));
  }

  /** So a leader may restore from whatever a read returns, stale or not. */
  lemma ReadIsSafe(s: System, read: KvRead)
    requires AllSound(s) && AllSafe(s) && CanAct(s, Lead(read))
    ensures Safe(s, RestoredCursor(read))
  {
    if read.Found? && Written(s.processes, read.text) {
      WrittenIsSafe(s, read.text);
    } else {
      SafeBelow(s, RestoredCursor(s.kv), RestoredCursor(read));
    }
  }

  lemma LeadKeepsSafe(s: System, read: KvRead)
    requires AllSound(s) && AllSafe(s) && CanAct(s, Lead(read))
    ensures AllSafe(Act(s, Lead(read)))
  {
    var t := Act(s, Lead(read));
    assert Grown(s.processes, t.processes);
    ReadIsSafe(s, read);
    forall i | 0 <= i < |t.processes| ensures Safe(t, t.processes[i].cursor) {
      SafeGrows(s, t, t.processes[i].cursor);
    }
    SafeGrows(s, t, RestoredCursor(s.kv));
    forall text | text in t.landing ensures Safe(t, RestoredCursor(Found(text))) {
      SafeGrows(s, t, RestoredCursor(Found(text)));
    }
  }

  lemma CommitKeepsSafe(s: System, commit: Commit)
    requires AllSafe(s)
    ensures AllSafe(s.(log := s.log + [commit]))
  {
    forall v | Safe(s, v) ensures Safe(s.(log := s.log + [commit]), v) {
      SafeLater(s, commit, v);
    }
  }

  lemma {:induction false} ActKeepsSafe(s: System, a: Action)
    requires AllSound(s) && AllSafe(s) && CanAct(s, a)
    ensures AllSafe(Act(s, a))
  {
    match a
    case Committed(commit) => CommitKeepsSafe(s, commit);
    case Lead(read) => LeadKeepsSafe(s, read);
    case Local(who, step) => LocalKeepsSafe(s, who, step);
    case Checkpoint(who) => CheckpointKeepsSafe(s, who);
    case Land(text) => LandKeepsSafe(s, text);
    case Drop(text) => LandKeepsSafe(s, text);
  }

  lemma {:induction false} LandKeepsSafe(s: System, text: string)
    requires AllSafe(s) && text in s.landing
    ensures AllSafe(Act(s, Land(text))) && AllSafe(Act(s, Drop(text)))
  {
    SafeSame(s, Act(s, Land(text)));
    SafeSame(s, Act(s, Drop(text)));
  }

  lemma SafeSame(s: System, t: System)
    requires AllSafe(s) && t.log == s.log && t.processes == s.processes && t.landing <= s.landing
    requires t.kv == s.kv || (t.kv.Found? && t.kv.text in s.landing)
    ensures AllSafe(t)
  {
    forall v | Safe(s, v) ensures Safe(t, v) {
      SafeGrows(s, t, v);
    }
  }

  lemma FreshIsSound(log: Log, restored: nat)
    ensures Sound(log, Fresh(restored))
  {
    assert P.Run<Stub>(true, []) == Some(P.Start());
  }

  lemma SavedNext(restored: nat, saved: seq<nat>, issued: nat, v: nat)
    requires SavedInOrder(restored, saved, issued) && restored <= issued <= v
    ensures SavedInOrder(restored, saved + [v], v)
  {
  }

  lemma CheckpointKeepsSound(s: System, who: nat)
    requires AllSound(s) && CanAct(s, Checkpoint(who))
    ensures Sound(s.log, Act(s, Checkpoint(who)).processes[who])
  {
    var p, q := s.processes[who], Act(s, Checkpoint(who)).processes[who];
    assert Sound(s.log, p);
    SavedNext(p.restored, p.saved, p.issued, q.issued);
  }

  /** Process i after an action is one that was sound, or a fresh one, or the one that moved. */
  lemma ProcessKeepsSound(s: System, a: Action, i: nat)
    requires AllSound(s) && CanAct(s, a) && i < |Act(s, a).processes| && !a.Committed?
    ensures Sound(s.log, Act(s, a).processes[i])
  {
    if i < |s.processes| { assert Sound(s.log, s.processes[i]); }
    match a
    case Lead(read) => if i == |s.processes| { FreshIsSound(s.log, RestoredCursor(read)); }
    case Local(who, step) => if i == who { StepKeepsSound(s.log, s.processes[who], step); }
    case Checkpoint(who) => if i == who { CheckpointKeepsSound(s, who); }
    case _ =>
  }

  lemma {:induction false} ActKeepsSound(s: System, a: Action)
    requires AllSound(s) && CanAct(s, a)
    ensures AllSound(Act(s, a))
  {
    var t := Act(s, a);
    if a.Committed? {
      forall i | 0 <= i < |t.processes| ensures Sound(t.log, t.processes[i]) {
        SoundLater(s.log, a.commit, s.processes[i]);
      }
    } else {
      forall i | 0 <= i < |t.processes| ensures Sound(t.log, t.processes[i]) {
        ProcessKeepsSound(s, a, i);
      }
    }
  }

  lemma {:induction false} RunKeepsInvariants(actions: seq<Action>)
    requires Run(actions).Some?
    ensures AllSound(Run(actions).value) && AllSafe(Run(actions).value)
  {
    if actions == [] {
      assert Live([], 0) == map[];
    } else {
      var init := actions[..|actions| - 1];
      RunKeepsInvariants(init);
      ActKeepsSound(Run(init).value, actions[|actions| - 1]);
      ActKeepsSafe(Run(init).value, actions[|actions| - 1]);
    }
  }
}

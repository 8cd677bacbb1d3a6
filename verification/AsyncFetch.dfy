/** The asynchronous watchers (nodes, deployments, jobs): the scan of the index watcher only
    notifies; a goroutine per notification reads the object's current state with Info and then
    puts it. Fetches finish in any order, may fail, and vanish when the process ends. */
module AsyncFetch {
  import opened Checkpoint
  import opened Cluster
  import opened Watcher

  /** A full read made for the notification `asked`, showing the object at `version`. */
  datatype Fetch = Fetch(asked: Stub, version: nat)

  /** `replies` are the list answers the running process has dealt with since it restored
      `restored`, `scan` the one it is looking at. `notified` records every goroutine ever
      started, those of earlier processes first (`earlier`); `pending` are reads not yet
      answered, `waiting` answered ones not yet put. */
  datatype Async = Async(
    log: Log,
    restored: nat,
    replies: seq<Reply>,
    scan: Option<Scanning>,
    earlier: seq<Stub>,
    notified: seq<Stub>,
    pending: multiset<Stub>,
    failed: multiset<Stub>,
    waiting: seq<Fetch>,
    published: seq<Fetch>,
    vanished: multiset<Stub>)

  datatype Action =
    | Committed(commit: Commit)
    | Answered(r: Reply)              // List returns
    | Examine                         // the scan looks at one row
    | EndScan
    | InfoReturns(asked: Stub, ok: bool)  // for an object that is gone it fails
    | Publish(k: nat)                 // the k-th waiting goroutine completes its Put
    | Restart(restored: nat)          // the process ends; the next one starts from this cursor

  function Initial(): Async {
    Async([], 0, [], None, [], [], multiset{}, multiset{}, [], [], multiset{})
  }

  function Watched(s: Async): State {
    Polled(s.restored, s.replies)
  }

  ghost predicate Enabled(s: Async, a: Action) {
    match a
    case Committed(_) => true
    case Answered(r) => s.scan.None? && Honest(s.log, r)
    case Examine => s.scan.Some? && s.scan.value.next < |s.scan.value.jobs|
    case EndScan => s.scan.Some? && s.scan.value.next == |s.scan.value.jobs|
    case InfoReturns(asked, ok) => asked in s.pending && (ok ==> asked.id in Live(s.log, |s.log|))
    case Publish(k) => k < |s.waiting|
    case Restart(_) => true
  }

  function Asked(fs: seq<Fetch>): multiset<Stub> {
    if fs == [] then multiset{} else Asked(fs[1..]) + multiset{fs[0].asked}
  }

  ghost function Apply(s: Async, a: Action): Async
    requires Enabled(s, a)
  {
    match a
    case Committed(commit) => s.(log := s.log + [commit])
    case Answered(r) =>
      if r.Listing? && r.lastIndex != Watched(s).wait then s.(scan := Some(Scanning(r.lastIndex, r.jobs, 0)))
      else s.(replies := s.replies + [r])
    case Examine =>
      var sc := s.scan.value;
      var t, v := s.(scan := Some(sc.(next := sc.next + 1))), sc.jobs[sc.next];
      if v.index <= Watched(s).cursor then t
      else t.(notified := s.notified + [v], pending := s.pending + multiset{v})
    case EndScan =>
      s.(scan := None, replies := s.replies + [Listing(s.scan.value.lastIndex, s.scan.value.jobs)])
    case InfoReturns(asked, ok) =>
      var left := s.pending - multiset{asked};
      if ok then s.(pending := left, waiting := s.waiting + [Fetch(asked, Live(s.log, |s.log|)[asked.id])])
      else s.(pending := left, failed := s.failed + multiset{asked})
    case Publish(k) =>
      s.(waiting := s.waiting[..k] + s.waiting[k + 1..], published := s.published + [s.waiting[k]])
    case Restart(restored) =>
      s.(restored := restored, replies := [], scan := None, earlier := s.notified,
         pending := multiset{}, waiting := [], vanished := s.vanished + s.pending + Asked(s.waiting))
  }

  ghost function Run(actions: seq<Action>): Option<Async> {
    if actions == [] then Some(Initial()) else
    match Run(actions[..|actions| - 1])
    case None => None
    case Some(s) =>
      if Enabled(s, actions[|actions| - 1]) then Some(Apply(s, actions[|actions| - 1])) else None
  }

  // ---- accounting ----

  /** Every notification is in exactly one of the five places. */
  ghost predicate Accounted(s: Async) {
    multiset(s.notified) == s.pending + s.failed + Asked(s.waiting) + Asked(s.published) + s.vanished
  }

  /** The object had this version at some index. */
  ghost predicate Real(log: Log, v: Stub) {
    exists i: nat :: i <= |log| && v.id in Live(log, i) && Live(log, i)[v.id] == v.index
  }

  /** Every read shows a real version of its object, at least as new as the one asked for. */
  ghost predicate UpToDate(log: Log, fs: seq<Fetch>) {
    forall k :: 0 <= k < |fs| ==> Fresh(log, fs[k])
  }

  ghost predicate Fresh(log: Log, f: Fetch) {
    f.asked.index <= f.version && Real(log, Stub(f.asked.id, f.version))
  }

  ghost predicate AllReal(log: Log, notified: seq<Stub>) {
    forall v :: v in notified ==> Real(log, v)
  }

  /** The notifications are exactly what the index watcher hands to its callback. */
  ghost predicate Following(s: Async) {
    && AllHonest(s.log, s.replies)
    && var before := s.earlier + Watched(s).handed;
       match s.scan
       case None => s.notified == before
       case Some(sc) =>
         && sc.lastIndex != Watched(s).wait
         && Honest(s.log, Listing(sc.lastIndex, sc.jobs))
         && RowsDone(sc, Watched(s).cursor, before, s.notified)
  }

  ghost predicate RowsDone(sc: Scanning, cursor: nat, before: seq<Stub>, notified: seq<Stub>) {
    sc.next <= |sc.jobs| && notified == before + Above(sc.jobs[..sc.next], cursor)
  }

  ghost predicate Inv(s: Async) {
    && Accounted(s) && UpToDate(s.log, s.waiting) && UpToDate(s.log, s.published)
    && AllReal(s.log, s.notified) && Following(s)
  }

  lemma {:induction false} AskedJoin(a: seq<Fetch>, b: seq<Fetch>)
    ensures Asked(a + b) == Asked(a) + Asked(b)
  {
    if a == [] {
      assert a + b == b;
    } else {
      assert (a + b)[1..] == a[1..] + b;
      AskedJoin(a[1..], b);
    }
  }

  lemma AskedOne(f: Fetch)
    ensures Asked([f]) == multiset{f.asked}
  {
    assert [f][1..] == [];
  }

  lemma {:induction false} AskedMoves(fs: seq<Fetch>, k: nat)
    requires k < |fs|
    ensures Asked(fs) == Asked(fs[..k] + fs[k + 1..]) + multiset{fs[k].asked}
  {
    if k == 0 {
      assert fs[..0] + fs[1..] == fs[1..];
    } else {
      var rest, left := fs[1..], fs[..k] + fs[k + 1..];
      AskedMoves(rest, k - 1);
      assert left[1..] == rest[..k - 1] + rest[k..] && left[0] == fs[0];
    }
  }

  /** Of five places holding `total`, the first gives one item to the second or the third. */
  lemma MoveOne(total: multiset<Stub>, a: multiset<Stub>, b: multiset<Stub>, c: multiset<Stub>,
                d: multiset<Stub>, e: multiset<Stub>, x: Stub)
    requires total == a + b + c + d + e && x in a
    ensures total == (a - multiset{x}) + (b + multiset{x}) + c + d + e
    ensures total == (a - multiset{x}) + b + (c + multiset{x}) + d + e
  {
  }

  lemma AccountedInfo(s: Async, asked: Stub, ok: bool)
    requires Accounted(s) && Enabled(s, InfoReturns(asked, ok))
    ensures Accounted(Apply(s, InfoReturns(asked, ok)))
  {
    MoveOne(multiset(s.notified), s.pending, s.failed, Asked(s.waiting), Asked(s.published), s.vanished, asked);
    if ok {
      var f := Fetch(asked, Live(s.log, |s.log|)[asked.id]);
      AskedJoin(s.waiting, [f]);
      AskedOne(f);
    }
  }

  lemma AccountedPublish(s: Async, k: nat)
    requires Accounted(s) && Enabled(s, Publish(k))
    ensures Accounted(Apply(s, Publish(k)))
  {
    AskedMoves(s.waiting, k);
    AskedJoin(s.published, [s.waiting[k]]);
    AskedOne(s.waiting[k]);
  }

  lemma AccountedExamine(s: Async)
    requires Accounted(s) && Enabled(s, Examine)
    ensures Accounted(Apply(s, Examine))
  {
    var t := Apply(s, Examine);
    if t.notified != s.notified {
      var v := s.scan.value.jobs[s.scan.value.next];
      assert multiset(t.notified) == multiset(s.notified) + multiset{v};
    }
  }

  lemma {:induction false} AccountedStep(s: Async, a: Action)
    requires Accounted(s) && Enabled(s, a)
    ensures Accounted(Apply(s, a))
  {
    match a
    case Examine => AccountedExamine(s);
    case InfoReturns(asked, ok) => AccountedInfo(s, asked, ok);
    case Publish(k) => AccountedPublish(s, k);
    case _ =>
  }

  // ---- the notifications ----

  lemma RowsDoneNext(sc: Scanning, cursor: nat, before: seq<Stub>, notified: seq<Stub>)
    requires RowsDone(sc, cursor, before, notified) && sc.next < |sc.jobs|
    ensures var v := sc.jobs[sc.next];
            RowsDone(sc.(next := sc.next + 1), cursor, before, if v.index <= cursor then notified else notified + [v])
  {
    ScanNextRow(sc.jobs, sc.next, cursor);
  }

  lemma AllRowsDone(sc: Scanning, cursor: nat, earlier: seq<Stub>, handed: seq<Stub>, notified: seq<Stub>)
    requires RowsDone(sc, cursor, earlier + handed, notified) && sc.next == |sc.jobs|
    ensures notified == earlier + (handed + Above(sc.jobs, cursor))
  {
    assert sc.jobs[..sc.next] == sc.jobs;
  }

  lemma {:induction false} FollowingExamine(s: Async)
    requires Following(s) && Enabled(s, Examine)
    ensures Following(Apply(s, Examine))
  {
    RowsDoneNext(s.scan.value, Watched(s).cursor, s.earlier + Watched(s).handed, s.notified);
  }

  lemma {:induction false} FollowingEndScan(s: Async)
    requires Following(s) && Enabled(s, EndScan)
    ensures Following(Apply(s, EndScan))
  {
    var sc := s.scan.value;
    var r := Listing(sc.lastIndex, sc.jobs);
    HonestNext(s.log, s.replies, r);
    PolledNext(s.restored, s.replies, r);
    AllRowsDone(sc, Watched(s).cursor, s.earlier, Watched(s).handed, s.notified);
  }

  lemma FollowingAnswered(s: Async, r: Reply)
    requires Following(s) && Enabled(s, Answered(r))
    ensures Following(Apply(s, Answered(r)))
  {
    HonestNext(s.log, s.replies, r);
    PolledNext(s.restored, s.replies, r);
  }

  lemma FollowingCommitted(s: Async, commit: Commit)
    requires Following(s)
    ensures Following(s.(log := s.log + [commit]))
  {
    forall k | 0 <= k < |s.replies| ensures Honest(s.log + [commit], s.replies[k]) {
      HonestLater(s.log, commit, s.replies[k]);
    }
    if s.scan.Some? {
      HonestLater(s.log, commit, Listing(s.scan.value.lastIndex, s.scan.value.jobs));
    }
  }

  /** Scanning row by row, between any other steps, notifies what the watch loop computes. */
  lemma {:induction false} FollowingStep(s: Async, a: Action)
    requires Following(s) && Enabled(s, a)
    ensures Following(Apply(s, a))
  {
    match a
    case Committed(commit) => FollowingCommitted(s, commit);
    case Answered(r) => FollowingAnswered(s, r);
    case Examine => FollowingExamine(s);
    case EndScan => FollowingEndScan(s);
    case _ =>
  }

  // ---- what the reads show ----

  lemma RealLater(log: Log, commit: Commit, v: Stub)
    requires Real(log, v)
    ensures Real(log + [commit], v)
  {
    var i: nat :| i <= |log| && v.id in Live(log, i) && Live(log, i)[v.id] == v.index;
    LiveOfPrefix(log, [commit], i);
  }

  lemma RealStep(s: Async, a: Action)
    requires AllReal(s.log, s.notified) && Following(s) && Enabled(s, a)
    ensures AllReal(Apply(s, a).log, Apply(s, a).notified)
  {
    match a
    case Committed(commit) =>
      forall v | v in s.notified ensures Real(s.log + [commit], v) {
        RealLater(s.log, commit, v);
      }
    case Examine =>
      var sc := s.scan.value;
      var v := sc.jobs[sc.next];
      assert v.id in Live(s.log, sc.lastIndex);
      assert Real(s.log, v);
    case _ =>
  }

  /** Info reads the current state, so it shows the notified version or a newer one. */
  lemma InfoIsUpToDate(log: Log, asked: Stub)
    requires Real(log, asked) && asked.id in Live(log, |log|)
    ensures Fresh(log, Fetch(asked, Live(log, |log|)[asked.id]))
  {
    var i: nat :| i <= |log| && asked.id in Live(log, i) && Live(log, i)[asked.id] == asked.index;
    LiveAdvances(log, i, |log|, asked.id);
  }

  lemma PendingIsReal(s: Async, asked: Stub)
    requires Accounted(s) && AllReal(s.log, s.notified) && asked in s.pending
    ensures Real(s.log, asked)
  {
    assert asked in multiset(s.notified);
  }

  lemma UpToDateLater(log: Log, commit: Commit, fs: seq<Fetch>)
    requires UpToDate(log, fs)
    ensures UpToDate(log + [commit], fs)
  {
    forall k | 0 <= k < |fs| ensures Fresh(log + [commit], fs[k]) {
      assert Fresh(log, fs[k]);
      RealLater(log, commit, Stub(fs[k].asked.id, fs[k].version));
    }
  }

  lemma UpToDatePublish(s: Async, k: nat)
    requires UpToDate(s.log, s.waiting) && UpToDate(s.log, s.published) && k < |s.waiting|
    ensures UpToDate(s.log, s.waiting[..k] + s.waiting[k + 1..])
    ensures UpToDate(s.log, s.published + [s.waiting[k]])
  {
  }

  lemma UpToDateInfo(s: Async, asked: Stub)
    requires Accounted(s) && AllReal(s.log, s.notified) && UpToDate(s.log, s.waiting)
    requires Enabled(s, InfoReturns(asked, true))
    ensures UpToDate(s.log, s.waiting + [Fetch(asked, Live(s.log, |s.log|)[asked.id])])
  {
    PendingIsReal(s, asked);
    InfoIsUpToDate(s.log, asked);
  }

  lemma UpToDateStep(s: Async, a: Action)
    requires Accounted(s) && AllReal(s.log, s.notified) && Enabled(s, a)
    requires UpToDate(s.log, s.waiting) && UpToDate(s.log, s.published)
    ensures UpToDate(Apply(s, a).log, Apply(s, a).waiting)
    ensures UpToDate(Apply(s, a).log, Apply(s, a).published)
  {
    match a
    case Committed(commit) =>
      UpToDateLater(s.log, commit, s.waiting);
      UpToDateLater(s.log, commit, s.published);
    case Publish(k) => UpToDatePublish(s, k);
    case InfoReturns(asked, ok) => if ok { UpToDateInfo(s, asked); }
    case _ =>
  }

  /** In every run each notification is exactly one of: read pending, read failed, read done
      and waiting to be put, published, or vanished when its process ended; and whatever was read shows a
      version at least as new as the notified one. The notifications themselves are those the
      watch loop makes of the answers dealt with. */
  lemma {:induction false} AsyncAccounting(actions: seq<Action>)
    requires Run(actions).Some?
    ensures Inv(Run(actions).value)
  {
    if actions != [] {
      var init, a := actions[..|actions| - 1], actions[|actions| - 1];
      AsyncAccounting(init);
      var s := Run(init).value;
      AccountedStep(s, a);
      FollowingStep(s, a);
      RealStep(s, a);
      UpToDateStep(s, a);
    }
  }

  // ---- when each read was made ----

  /** Some action of the run is the read of f, and f shows the version live at that moment. */
  ghost predicate ReadIn(actions: seq<Action>, f: Fetch) {
    exists n: nat :: ReadAt(actions, n, f)
  }

  ghost predicate ReadAt(actions: seq<Action>, n: nat, f: Fetch) {
    && n < |actions| && actions[n] == InfoReturns(f.asked, true)
    && Run(actions[..n]).Some?
    && var log := Run(actions[..n]).value.log;
       f.asked.id in Live(log, |log|) && Live(log, |log|)[f.asked.id] == f.version
  }

  ghost predicate AllReadIn(actions: seq<Action>, fs: seq<Fetch>) {
    forall k :: 0 <= k < |fs| ==> ReadIn(actions, fs[k])
  }

  lemma ReadLater(actions: seq<Action>, a: Action, f: Fetch)
    requires ReadIn(actions, f)
    ensures ReadIn(actions + [a], f)
  {
    var n: nat :| ReadAt(actions, n, f);
    assert (actions + [a])[..n] == actions[..n];
    assert ReadAt(actions + [a], n, f);
  }

  lemma AllReadLater(actions: seq<Action>, a: Action, fs: seq<Fetch>)
    requires AllReadIn(actions, fs)
    ensures AllReadIn(actions + [a], fs)
  {
    forall k | 0 <= k < |fs| ensures ReadIn(actions + [a], fs[k]) {
      ReadLater(actions, a, fs[k]);
    }
  }

  lemma ReadNow(actions: seq<Action>, asked: Stub)
    requires Run(actions).Some? && Enabled(Run(actions).value, InfoReturns(asked, true))
    ensures var s := Run(actions).value;
            ReadIn(actions + [InfoReturns(asked, true)], Fetch(asked, Live(s.log, |s.log|)[asked.id]))
  {
    var all := actions + [InfoReturns(asked, true)];
    assert all[..|actions|] == actions;
    var s := Run(actions).value;
    assert ReadAt(all, |actions|, Fetch(asked, Live(s.log, |s.log|)[asked.id]));
  }

  lemma ReadStep(actions: seq<Action>, a: Action)
    requires Run(actions).Some? && Enabled(Run(actions).value, a)
    requires AllReadIn(actions, Run(actions).value.waiting) && AllReadIn(actions, Run(actions).value.published)
    ensures AllReadIn(actions + [a], Apply(Run(actions).value, a).waiting)
    ensures AllReadIn(actions + [a], Apply(Run(actions).value, a).published)
  {
    var s := Run(actions).value;
    AllReadLater(actions, a, s.waiting);
    AllReadLater(actions, a, s.published);
    if a.InfoReturns? && a.ok { ReadNow(actions, a.asked); }
  }

  /** Whatever is waiting or published was read by some action of the run and shows the version
      of its object that was live at the moment of that read, not the one notified. */
  lemma {:induction false} ReadsAreCurrent(actions: seq<Action>)
    requires Run(actions).Some?
    ensures AllReadIn(actions, Run(actions).value.waiting) && AllReadIn(actions, Run(actions).value.published)
  {
    if actions != [] {
      var init, a := actions[..|actions| - 1], actions[|actions| - 1];
      assert actions == init + [a];
      ReadsAreCurrent(init);
      ReadStep(init, a);
    }
  }

  /** Publications are final and come in order: later ones are added at the end. */
  lemma {:induction false} PublishedGrows(actions: seq<Action>, n: nat)
    requires Run(actions).Some? && n <= |actions|
    ensures Run(actions[..n]).Some? && Run(actions[..n]).value.published <= Run(actions).value.published
  {
    if n == |actions| {
      assert actions[..n] == actions;
    } else {
      var init, a := actions[..|actions| - 1], actions[|actions| - 1];
      assert init[..n] == actions[..n];
      PublishedGrows(init, n);
      assert Run(init).value.published <= Apply(Run(init).value, a).published;
    }
  }

  /** Whichever fetch is answered may be put next. */
  lemma AnyFetchMayBeNext(actions: seq<Action>, k: nat)
    requires Run(actions).Some? && k < |Run(actions).value.waiting|
    ensures Run(actions + [Publish(k)]).Some?
    ensures Run(actions + [Publish(k)]).value.published ==
            Run(actions).value.published + [Run(actions).value.waiting[k]]
  {
    assert (actions + [Publish(k)])[..|actions|] == actions;
  }

  /** From s to t the fetches under way went on: nothing new was notified, nothing vanished, and
      of the reads only those of objects that are gone have failed. */
  ghost predicate Fetched(s: Async, t: Async) {
    && t == s.(pending := t.pending, failed := t.failed, waiting := t.waiting, published := t.published)
    && forall v :: t.failed[v] + (if v.id in Live(s.log, |s.log|) then 0 else t.pending[v]) ==
                   s.failed[v] + (if v.id in Live(s.log, |s.log|) then 0 else s.pending[v])
  }

  lemma FetchedTwice(s: Async, t: Async, u: Async)
    requires Fetched(s, t) && Fetched(t, u)
    ensures Fetched(s, u)
  {
    forall v
      ensures u.failed[v] + (if v.id in Live(s.log, |s.log|) then 0 else u.pending[v]) ==
              s.failed[v] + (if v.id in Live(s.log, |s.log|) then 0 else s.pending[v])
    {
      assert t.failed[v] + (if v.id in Live(s.log, |s.log|) then 0 else t.pending[v]) ==
             s.failed[v] + (if v.id in Live(s.log, |s.log|) then 0 else s.pending[v]);
    }
  }

  lemma ReadFetches(s: Async, asked: Stub)
    requires asked in s.pending
    ensures var a := InfoReturns(asked, asked.id in Live(s.log, |s.log|));
            && Enabled(s, a) && Fetched(s, Apply(s, a))
            && |Apply(s, a).pending| + 1 == |s.pending|
            && |Apply(s, a).waiting| <= |s.waiting| + 1
  {
  }

  lemma PutFetches(s: Async)
    requires s.waiting != []
    ensures Enabled(s, Publish(0)) && Fetched(s, Apply(s, Publish(0)))
    ensures |Apply(s, Publish(0)).waiting| + 1 == |s.waiting| && Apply(s, Publish(0)).pending == s.pending
  {
  }

  /** From every reachable state all fetches under way can finish without a failure, except
      those of objects that are gone. */
  lemma {:induction false} FetchesCanFinish(actions: seq<Action>, s: Async) returns (longer: seq<Action>, t: Async)
    requires Run(actions) == Some(s)
    ensures Run(longer) == Some(t) && Fetched(s, t) && t.pending == multiset{} && t.waiting == []
    decreases 2 * |s.pending| + |s.waiting|
  {
    if s.pending == multiset{} && s.waiting == [] {
      longer, t := actions, s;
    } else {
      var a := Publish(0);
      if x :| x in s.pending {
        a := InfoReturns(x, x.id in Live(s.log, |s.log|));
        ReadFetches(s, x);
      } else {
        PutFetches(s);
      }
      longer := actions + [a];
      assert longer[..|actions|] == actions;
      longer, t := FetchesCanFinish(longer, Apply(s, a));
      FetchedTwice(s, Apply(s, a), t);
    }
  }

  // ---- what the run received ----

  /** The list answers received since the last restart. */
  function Received(actions: seq<Action>): seq<Reply> {
    if actions == [] then [] else
    var before := Received(actions[..|actions| - 1]);
    match actions[|actions| - 1]
    case Answered(r) => before + [r]
    case Restart(_) => []
    case _ => before
  }

  /** The answers a process has dealt with, and the one it is looking at. */
  function DealtWith(s: Async): seq<Reply> {
    s.replies + match s.scan
                case None => []
                case Some(sc) => [Listing(sc.lastIndex, sc.jobs)]
  }

  lemma DealtStep(s: Async, a: Action)
    requires Enabled(s, a)
    ensures DealtWith(Apply(s, a)) ==
            match a
            case Answered(r) => DealtWith(s) + [r]
            case Restart(_) => []
            case _ => DealtWith(s)
  {
  }

  /** Every answer received since the last restart is dealt with, in order, errors and skipped
      lists included. */
  lemma {:induction false} AnswersAreDealtWith(actions: seq<Action>)
    requires Run(actions).Some?
    ensures DealtWith(Run(actions).value) == Received(actions)
  {
    if actions != [] {
      var init, a := actions[..|actions| - 1], actions[|actions| - 1];
      AnswersAreDealtWith(init);
      DealtStep(Run(init).value, a);
    }
  }

  /** Rows still to look at. */
  function RowsLeft(s: Async): int {
    if s.scan.Some? then |s.scan.value.jobs| - s.scan.value.next else 0
  }

  lemma ScanIsBounded(actions: seq<Action>)
    requires Run(actions).Some?
    ensures RowsLeft(Run(actions).value) >= 0
  {
    AsyncAccounting(actions);
  }

  lemma ScanMoves(s: Async)
    requires s.scan.Some? && RowsLeft(s) >= 0
    ensures var a := if RowsLeft(s) > 0 then Examine else EndScan;
            && Enabled(s, a) && Apply(s, a).log == s.log && Apply(s, a).restored == s.restored
            && DealtWith(Apply(s, a)) == DealtWith(s)
            && (a == Examine ==> RowsLeft(Apply(s, a)) == RowsLeft(s) - 1)
            && (a == EndScan ==> Apply(s, a).scan.None?)
  {
    DealtStep(s, if RowsLeft(s) > 0 then Examine else EndScan);
  }

  lemma {:induction false} ScanCanFinish(actions: seq<Action>, s: Async) returns (longer: seq<Action>, t: Async)
    requires Run(actions) == Some(s)
    ensures Run(longer) == Some(t) && t.scan.None? && t.log == s.log && t.restored == s.restored
    ensures t.replies == DealtWith(s)
    decreases RowsLeft(s)
  {
    if s.scan.None? {
      longer, t := actions, s;
    } else {
      ScanIsBounded(actions);
      ScanMoves(s);
      var a := if RowsLeft(s) > 0 then Examine else EndScan;
      longer, t := actions + [a], Apply(s, a);
      assert longer[..|actions|] == actions;
      if a == Examine {
        longer, t := ScanCanFinish(longer, t);
      }
    }
  }

  /** From every reachable state the watcher can deal with whatever list or error comes next. */
  lemma {:induction false} AnyAnswerCanBeDealtWith(actions: seq<Action>, s: Async, r: Reply)
      returns (longer: seq<Action>, t: Async)
    requires Run(actions) == Some(s) && Honest(s.log, r)
    ensures Run(longer) == Some(t) && t.scan.None? && t.log == s.log && t.restored == s.restored
    ensures t.replies == DealtWith(s) + [r]
  {
    var u;
    longer, u := ScanCanFinish(actions, s);
    var next := longer + [Answered(r)];
    assert next[..|longer|] == longer;
    DealtStep(u, Answered(r));
    longer, t := ScanCanFinish(next, Apply(u, Answered(r)));
  }

  /** How often the read for this notification failed. */
  function Failures(actions: seq<Action>, v: Stub): nat {
    if actions == [] then 0 else
    Failures(actions[..|actions| - 1], v) + (if actions[|actions| - 1] == InfoReturns(v, false) then 1 else 0)
  }

  lemma FailureStep(s: Async, a: Action, v: Stub)
    requires Enabled(s, a)
    ensures Apply(s, a).failed[v] == s.failed[v] + if a == InfoReturns(v, false) then 1 else 0
  {
  }

  /** A notification counts as failed exactly as often as its read failed, so what neither failed
      nor got through has vanished with a process. */
  lemma {:induction false} FailuresAreReads(actions: seq<Action>, v: Stub)
    requires Run(actions).Some?
    ensures Run(actions).value.failed[v] == Failures(actions, v)
  {
    if actions != [] {
      var init, a := actions[..|actions| - 1], actions[|actions| - 1];
      FailuresAreReads(init, v);
      FailureStep(Run(init).value, a, v);
    }
  }

  /** What is outstanding was started by the running process. */
  ghost predicate OwnOutstanding(s: Async) {
    |s.earlier| <= |s.notified| && s.pending + Asked(s.waiting) <= multiset(s.notified[|s.earlier|..])
  }

  lemma OwnExamine(s: Async)
    requires OwnOutstanding(s) && Enabled(s, Examine)
    ensures OwnOutstanding(Apply(s, Examine))
  {
    var t, n := Apply(s, Examine), |s.earlier|;
    if t.notified != s.notified {
      var v := s.scan.value.jobs[s.scan.value.next];
      assert t.notified[n..] == s.notified[n..] + [v];
    }
  }

  lemma OwnInfo(s: Async, asked: Stub, ok: bool)
    requires OwnOutstanding(s) && Enabled(s, InfoReturns(asked, ok))
    ensures OwnOutstanding(Apply(s, InfoReturns(asked, ok)))
  {
    if ok {
      var f := Fetch(asked, Live(s.log, |s.log|)[asked.id]);
      AskedJoin(s.waiting, [f]);
      AskedOne(f);
      Rebalance(s.pending, Asked(s.waiting), asked);
    }
  }

  lemma Rebalance(a: multiset<Stub>, b: multiset<Stub>, x: Stub)
    requires x in a
    ensures (a - multiset{x}) + (b + multiset{x}) == a + b
  {
  }

  lemma OwnPublish(s: Async, k: nat)
    requires OwnOutstanding(s) && Enabled(s, Publish(k))
    ensures OwnOutstanding(Apply(s, Publish(k)))
  {
    AskedMoves(s.waiting, k);
  }

  lemma OwnRestart(s: Async, restored: nat)
    ensures OwnOutstanding(Apply(s, Restart(restored)))
  {
  }

  lemma {:induction false} OwnStep(s: Async, a: Action)
    requires OwnOutstanding(s) && Enabled(s, a)
    ensures OwnOutstanding(Apply(s, a))
  {
    match a
    case Examine => OwnExamine(s);
    case InfoReturns(asked, ok) => OwnInfo(s, asked, ok);
    case Publish(k) => OwnPublish(s, k);
    case Restart(restored) => OwnRestart(s, restored);
    case _ =>
  }

  /** A restart ends all fetches under way: whatever is outstanding in any later state belongs
      to notifications of the process then running. */
  lemma {:induction false} RestartEndsFetches(actions: seq<Action>)
    requires Run(actions).Some?
    ensures OwnOutstanding(Run(actions).value)
  {
    if actions != [] {
      RestartEndsFetches(actions[..|actions| - 1]);
      OwnStep(Run(actions[..|actions| - 1]).value, actions[|actions| - 1]);
    }
  }

  lemma KeepsRestored(s: Async, a: Action)
    requires Enabled(s, a)
    ensures Apply(s, a).restored == if a.Restart? then a.restored else s.restored
  {
  }

  /** The watcher runs from the cursor of the last restart, or from 0 before any. */
  lemma {:induction false} RunsFromLastRestart(actions: seq<Action>, n: nat)
    requires Run(actions).Some? && n <= |actions| && (n > 0 ==> actions[n - 1].Restart?)
    requires forall k :: n <= k < |actions| ==> !actions[k].Restart?
    ensures Run(actions).value.restored == if n == 0 then 0 else actions[n - 1].restored
  {
    if n < |actions| {
      var init, a := actions[..|actions| - 1], actions[|actions| - 1];
      RunsFromLastRestart(init, n);
      KeepsRestored(Run(init).value, a);
    }
  }

  // ---- when the fetches have finished ----

  ghost predicate Covered(s: Async, v: Stub) {
    exists k :: 0 <= k < |s.published| && s.published[k].asked == v && s.published[k].version >= v.index
  }

  lemma {:induction false} AskedMember(fs: seq<Fetch>, v: Stub) returns (k: nat)
    requires v in Asked(fs)
    ensures k < |fs| && fs[k].asked == v
  {
    if fs[0].asked == v {
      k := 0;
    } else {
      k := AskedMember(fs[1..], v);
      k := k + 1;
    }
  }

  /** When nothing is outstanding, a notification was covered by a publication of its object at
      its version or a newer one, in whatever order the reads finished, unless its read failed
      or vanished when its process ended. */
  lemma {:induction false} FinishedFetchesCover(actions: seq<Action>, v: Stub)
    requires Run(actions).Some? && v in Run(actions).value.notified
    requires Run(actions).value.pending == multiset{} && Run(actions).value.waiting == []
    requires v !in Run(actions).value.failed && v !in Run(actions).value.vanished
    ensures Covered(Run(actions).value, v)
  {
    AsyncAccounting(actions);
    var s := Run(actions).value;
    assert v in multiset(s.notified);
    var k := AskedMember(s.published, v);
    assert s.published[k].asked == v;
  }

  /** The newest version of an object among the publications. */
  ghost function Newest(fs: seq<Fetch>, id: string): nat {
    if fs == [] then 0 else
    var rest := Newest(fs[1..], id);
    if fs[0].asked.id == id && fs[0].version > rest then fs[0].version else rest
  }

  lemma {:induction false} NewestIsLargest(fs: seq<Fetch>, k: nat)
    requires k < |fs|
    ensures Newest(fs, fs[k].asked.id) >= fs[k].version
  {
    if k > 0 { NewestIsLargest(fs[1..], k - 1); }
  }

  /** When all reads succeeded and finished, the newest version published of every object is at
      least the newest one notified. */
  lemma {:induction false} NewestCoversNotifications(actions: seq<Action>, v: Stub)
    requires Run(actions).Some? && v in Run(actions).value.notified
    requires Run(actions).value.pending == multiset{} && Run(actions).value.waiting == []
    requires Run(actions).value.failed == multiset{} && Run(actions).value.vanished == multiset{}
    ensures Newest(Run(actions).value.published, v.id) >= v.index
  {
    FinishedFetchesCover(actions, v);
    var s := Run(actions).value;
    var k :| 0 <= k < |s.published| && s.published[k].asked == v && s.published[k].version >= v.index;
    NewestIsLargest(s.published, k);
  }

  /** What the scan loop hands to the callback is a version live at the index of some answer. */
  lemma {:induction false} ScanNotifiesLiveVersions(log: Log, restored: nat, replies: seq<Reply>, v: Stub)
      returns (seenAt: nat)
    requires AllHonest(log, replies) && v in Polled(restored, replies).handed
    ensures seenAt <= |log| && v.id in Live(log, seenAt) && Live(log, seenAt)[v.id] == v.index
  {
    var init, last := replies[..|replies| - 1], replies[|replies| - 1];
    var w := Polled(restored, init);
    if v in w.handed {
      seenAt := ScanNotifiesLiveVersions(log, restored, init, v);
    } else {
      assert Honest(log, last);
      AboveMember(last.jobs, w.cursor, v);
      seenAt := last.lastIndex;
    }
  }

  // ---- scan and fetches together ----

  /** The process has dealt with an answer at least as new as all its others. */
  ghost predicate NewestDone(s: Async) {
    && s.replies != [] && s.replies[|s.replies| - 1].Listing?
    && forall k :: 0 <= k < |s.replies| && s.replies[k].Listing? ==>
         s.replies[k].lastIndex <= s.replies[|s.replies| - 1].lastIndex
  }

  lemma HandedIsNotified(s: Async, v: Stub)
    requires Following(s) && v in Watched(s).handed
    ensures v in s.notified
  {
  }

  /** Once the newest answer so far has been dealt with, every object it shows above the
      restore value has been notified at exactly the version shown. */
  lemma {:induction false} NewestIsNotified(s: Async, id: string)
    requires Following(s) && NewestDone(s)
    ensures var i := s.replies[|s.replies| - 1].lastIndex;
            && i <= |s.log|
            && (id in Live(s.log, i) && Live(s.log, i)[id] > s.restored ==>
                  Stub(id, Live(s.log, i)[id]) in s.notified)
  {
    var i := s.replies[|s.replies| - 1].lastIndex;
    assert Honest(s.log, s.replies[|s.replies| - 1]);
    if id in Live(s.log, i) && Live(s.log, i)[id] > s.restored {
      Convergence(s.log, s.restored, s.replies, id);
      HandedIsNotified(s, Stub(id, Live(s.log, i)[id]));
    }
  }

  /** When the newest answer has been dealt with and no fetch is outstanding, every object it
      shows above the restore value has been published for that very version, at it or newer,
      unless that read failed or vanished. */
  lemma {:induction false} NewestIsPublished(actions: seq<Action>, id: string)
    requires Run(actions).Some? && NewestDone(Run(actions).value)
    requires Run(actions).value.pending == multiset{} && Run(actions).value.waiting == []
    ensures var s := Run(actions).value;
            var i := s.replies[|s.replies| - 1].lastIndex;
            && i <= |s.log|
            && (id in Live(s.log, i) && Live(s.log, i)[id] > s.restored ==>
                  var v := Stub(id, Live(s.log, i)[id]);
                  Covered(s, v) || v in s.failed || v in s.vanished)
  {
    AsyncAccounting(actions);
    var s := Run(actions).value;
    NewestIsNotified(s, id);
    var i := s.replies[|s.replies| - 1].lastIndex;
    if id in Live(s.log, i) && Live(s.log, i)[id] > s.restored {
      var v := Stub(id, Live(s.log, i)[id]);
      if v !in s.failed && v !in s.vanished {
        FinishedFetchesCover(actions, v);
      }
    }
  }

  /** An object no commit has touched since the newest answer is then published at exactly its
      live version, and no publication of it is newer. */
  lemma {:induction false} LiveIsPublished(actions: seq<Action>, id: string) returns (k: nat)
    requires Run(actions).Some? && NewestDone(Run(actions).value)
    requires Run(actions).value.pending == multiset{} && Run(actions).value.waiting == []
    requires var s := Run(actions).value;
             && id in Live(s.log, |s.log|)
             && s.restored < Live(s.log, |s.log|)[id] <= s.replies[|s.replies| - 1].lastIndex
             && Stub(id, Live(s.log, |s.log|)[id]) !in s.failed + s.vanished
    ensures var s := Run(actions).value;
            && k < |s.published| && s.published[k].asked == Stub(id, Live(s.log, |s.log|)[id])
            && s.published[k].version == Newest(s.published, id) == Live(s.log, |s.log|)[id]
  {
    NewestIsPublished(actions, id);
    AsyncAccounting(actions);
    var s := Run(actions).value;
    var v := Stub(id, Live(s.log, |s.log|)[id]);
    LivePersists(s.log, s.replies[|s.replies| - 1].lastIndex, |s.log|, id);
    k :| 0 <= k < |s.published| && s.published[k].asked == v && s.published[k].version >= v.index;
    NewestIsLargest(s.published, k);
    NothingNewer(s.log, s.published, id);
  }

  lemma {:induction false} NothingNewer(log: Log, fs: seq<Fetch>, id: string)
    requires UpToDate(log, fs) && id in Live(log, |log|)
    ensures Newest(fs, id) <= Live(log, |log|)[id]
  {
    if fs != [] {
      assert Fresh(log, fs[0]);
      assert forall k :: 0 <= k < |fs[1..]| ==> fs[1..][k] == fs[k + 1];
      NothingNewer(log, fs[1..], id);
      if fs[0].asked.id == id {
        var i: nat :| i <= |log| && id in Live(log, i) && Live(log, i)[id] == fs[0].version;
        LiveAdvances(log, i, |log|, id);
      }
    }
  }
}

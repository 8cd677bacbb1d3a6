/** The index watcher: a cursor (`lastChangeIndex`) and a wait index, polled against list
    answers that may be stale, repeated or out of order. `Polled` is the machine as a function
    of the answers received; `FirehoseBase` is the loop; the lemmas say what one integer
    achieves. */
module Watcher {
  import opened Checkpoint
  import opened Cluster

  /** What one call of List returned. */
  datatype Reply = ListError | Listing(lastIndex: nat, jobs: seq<Stub>)

  /** A list answer being scanned; `next` is the row the loop looks at next. */
  datatype Scanning = Scanning(lastIndex: nat, jobs: seq<Stub>, next: nat)

  /** `wait` is q.WaitIndex, `cursor` is lastChangeIndex, `handed` everything given to the callback. */
  datatype State = State(wait: nat, cursor: nat, handed: seq<Stub>)

  /** The rows a scan hands over: those above the cursor, in list order. */
  function Above(jobs: seq<Stub>, cursor: nat): seq<Stub> {
    if jobs == [] then [] else
    var rest := Above(jobs[..|jobs| - 1], cursor);
    var last := jobs[|jobs| - 1];
    if last.index <= cursor then rest else rest + [last]
  }

  /** newMax after a scan of `jobs` that started with newMax == cursor. */
  function NewMax(jobs: seq<Stub>, cursor: nat): (m: nat)
    ensures cursor <= m
    ensures forall k :: 0 <= k < |jobs| ==> jobs[k].index <= m
    ensures m == cursor || exists k :: 0 <= k < |jobs| && jobs[k].index == m
  {
    if jobs == [] then cursor else
    var m := NewMax(jobs[..|jobs| - 1], cursor);
    var last := jobs[|jobs| - 1];
    if last.index > m then last.index else m
  }

  function Scan(w: State, lastIndex: nat, jobs: seq<Stub>): State {
    State(lastIndex, NewMax(jobs, w.cursor), w.handed + Above(jobs, w.cursor))
  }

  function Poll(w: State, r: Reply): State {
    match r
    case ListError => w
    case Listing(lastIndex, jobs) => if lastIndex == w.wait then w else Scan(w, lastIndex, jobs)
  }

  /** The watcher after these answers, started from restore value `restored`. */
  function Polled(restored: nat, replies: seq<Reply>): State {
    if replies == [] then State(restored, restored, []) else
    Poll(Polled(restored, replies[..|replies| - 1]), replies[|replies| - 1])
  }

  /** The same watcher without the LastIndex == WaitIndex shortcut. */
  function PolledAlways(restored: nat, replies: seq<Reply>): State {
    if replies == [] then State(restored, restored, []) else
    var w := PolledAlways(restored, replies[..|replies| - 1]);
    match replies[|replies| - 1]
    case ListError => w
    case Listing(lastIndex, jobs) => Scan(w, lastIndex, jobs)
  }

  /** The LastIndex of the last list received, or the restored value before the first. */
  function LastListed(restored: nat, replies: seq<Reply>): nat {
    if replies == [] then restored else
    match replies[|replies| - 1]
    case ListError => LastListed(restored, replies[..|replies| - 1])
    case Listing(lastIndex, _) => lastIndex
  }

  /** The watcher waits for a change after the last list it received, even if that list was
      empty or brought nothing new; before the first, after the restored index. */
  lemma {:induction false} WaitIsLastListed(restored: nat, replies: seq<Reply>)
    ensures Polled(restored, replies).wait == LastListed(restored, replies)
  {
    if replies != [] {
      WaitIsLastListed(restored, replies[..|replies| - 1]);
    }
  }

  lemma PolledNext(restored: nat, replies: seq<Reply>, r: Reply)
    ensures Polled(restored, replies + [r]) == Poll(Polled(restored, replies), r)
  {
    assert (replies + [r])[..|replies|] == replies;
  }

  lemma ScanNextRow(jobs: seq<Stub>, k: nat, cursor: nat)
    requires k < |jobs|
    ensures Above(jobs[..k + 1], cursor) ==
            if jobs[k].index <= cursor then Above(jobs[..k], cursor) else Above(jobs[..k], cursor) + [jobs[k]]
    ensures NewMax(jobs[..k + 1], cursor) ==
            if jobs[k].index > NewMax(jobs[..k], cursor) then jobs[k].index else NewMax(jobs[..k], cursor)
  {
    assert jobs[..k + 1][..k] == jobs[..k];
  }

  // ---- the loop ----

  /** FirehoseBase, with the callback's effect recorded in `handed`. The endless loop of
      watch is run over any finite sequence of list answers. */
  class FirehoseBase {
    var lastChangeIndex: nat
    var handed: seq<Stub>

    constructor ()
      ensures lastChangeIndex == 0 && handed == []
    {
      lastChangeIndex := 0;
      handed := [];
    }

    /** False stands for the error returned on an unknown type. */
    method SetRestoreValue(restoreValue: GoValue) returns (ok: bool)
      modifies this`lastChangeIndex
      ensures ok <==> CursorFrom(restoreValue).Some?
      ensures lastChangeIndex == if ok then CursorFrom(restoreValue).value else old(lastChangeIndex)
    {
      match restoreValue {
        case GoInt(i) =>
          lastChangeIndex := ToUint64(i);
        case GoInt64(i) =>
          lastChangeIndex := ToUint64(i);
        case _ =>
          return false;
      }
      return true;
    }

    method Callback(job: Stub)
      modifies this`handed
      ensures handed == old(handed) + [job]
    {
      handed := handed + [job];
    }

    method Watch(replies: seq<Reply>) returns (waitIndex: nat)
      modifies this
      ensures State(waitIndex, lastChangeIndex, handed) ==
              var w := Polled(old(lastChangeIndex), replies);
              w.(handed := old(handed) + w.handed)
    {
      waitIndex := lastChangeIndex;
      var newMax := lastChangeIndex;
      ghost var before := handed;
      ghost var restored := lastChangeIndex;
      for n := 0 to |replies|
        invariant newMax == lastChangeIndex
        invariant State(waitIndex, lastChangeIndex, handed) ==
                  var w := Polled(restored, replies[..n]);
                  w.(handed := before + w.handed)
      {
        assert replies[..n + 1][..n] == replies[..n];
        if replies[n].Listing? && replies[n].lastIndex != waitIndex {
          var jobs := replies[n].jobs;
          ghost var sofar := handed;
          for k := 0 to |jobs|
            invariant lastChangeIndex == Polled(restored, replies[..n]).cursor
            invariant newMax == NewMax(jobs[..k], lastChangeIndex)
            invariant handed == sofar + Above(jobs[..k], lastChangeIndex)
          {
            assert jobs[..k + 1][..k] == jobs[..k];
            if jobs[k].index > lastChangeIndex {
              if jobs[k].index > newMax {
                newMax := jobs[k].index;
              }
              Callback(jobs[k]);
            }
          }
          assert jobs[..|jobs|] == jobs;
          waitIndex := replies[n].lastIndex;
          lastChangeIndex := newMax;
        }
      }
      assert replies[..|replies|] == replies;
    }
  }

  // ---- what a scan hands over ----

  lemma {:induction false} AboveMember(jobs: seq<Stub>, cursor: nat, v: Stub)
    ensures v in Above(jobs, cursor) <==> v in jobs && v.index > cursor
  {
    if jobs != [] {
      AboveMember(jobs[..|jobs| - 1], cursor, v);
      assert jobs == jobs[..|jobs| - 1] + [jobs[|jobs| - 1]];
    }
  }

  ghost predicate Distinct(s: seq<Stub>) {
    forall a, b :: 0 <= a < b < |s| ==> s[a] != s[b]
  }

  lemma {:induction false} AboveDistinct(jobs: seq<Stub>, cursor: nat)
    requires Distinct(jobs)
    ensures Distinct(Above(jobs, cursor))
  {
    if jobs != [] {
      var init, last := jobs[..|jobs| - 1], jobs[|jobs| - 1];
      AboveDistinct(init, cursor);
      AboveMember(init, cursor, last);
    }
  }

  lemma DistinctJoin(s: seq<Stub>, t: seq<Stub>)
    requires Distinct(s) && Distinct(t)
    requires forall v :: v in s ==> v !in t
    ensures Distinct(s + t)
  {
    forall a, b | 0 <= a < b < |s + t| ensures (s + t)[a] != (s + t)[b] {
      if a < |s| <= b {
        assert s[a] in s && t[b - |s|] in t;
      }
    }
  }

  // ---- answers that show some prefix of the log ----

  /** Every list answer shows the log at its LastIndex, in some order; nothing is assumed
      about how the LastIndex values of successive answers compare. */
  ghost predicate Honest(log: Log, r: Reply) {
    r.Listing? ==> r.lastIndex <= |log| && Lists(r.jobs, Live(log, r.lastIndex))
  }

  ghost predicate AllHonest(log: Log, replies: seq<Reply>) {
    forall k :: 0 <= k < |replies| ==> Honest(log, replies[k])
  }

  lemma HonestNext(log: Log, replies: seq<Reply>, r: Reply)
    requires AllHonest(log, replies) && Honest(log, r)
    ensures AllHonest(log, replies + [r])
  {
  }

  lemma HonestLater(log: Log, commit: Commit, r: Reply)
    requires Honest(log, r)
    ensures Honest(log + [commit], r)
  {
    if r.Listing? { LiveOfPrefix(log, [commit], r.lastIndex); }
  }

  /** The scan a poll does not do when it takes the shortcut would hand over nothing. */
  ghost predicate NothingNew(log: Log, w: State) {
    w.wait <= |log| ==> forall id :: id in Live(log, w.wait) ==> Live(log, w.wait)[id] <= w.cursor
  }

  lemma {:induction false} NothingAbove(jobs: seq<Stub>, cursor: nat)
    requires forall k :: 0 <= k < |jobs| ==> jobs[k].index <= cursor
    ensures Above(jobs, cursor) == [] && NewMax(jobs, cursor) == cursor
  {
    if jobs != [] {
      NothingAbove(jobs[..|jobs| - 1], cursor);
    }
  }

  lemma ScanLeavesNothingNew(log: Log, w: State, r: Reply)
    requires Honest(log, r) && r.Listing?
    ensures NothingNew(log, Scan(w, r.lastIndex, r.jobs))
  {
    var live := Live(log, r.lastIndex);
    forall id | id in live
      ensures live[id] <= NewMax(r.jobs, w.cursor)
    {
      var k :| 0 <= k < |r.jobs| && r.jobs[k] == Stub(id, live[id]);
      assert r.jobs[k].index <= NewMax(r.jobs, w.cursor);
    }
  }

  lemma {:induction false} WaitIndexShowsNothingNew(log: Log, restored: nat, replies: seq<Reply>)
    requires AllHonest(log, replies)
    ensures NothingNew(log, Polled(restored, replies))
  {
    if replies == [] {
      if restored <= |log| {
        forall id | id in Live(log, restored) ensures Live(log, restored)[id] <= restored {
          LiveBounds(log, restored, id);
        }
      }
    } else {
      var init, last := replies[..|replies| - 1], replies[|replies| - 1];
      WaitIndexShowsNothingNew(log, restored, init);
      if last.Listing? {
        assert Honest(log, last);
        ScanLeavesNothingNew(log, Polled(restored, init), last);
      }
    }
  }

  /** Skipping an answer whose LastIndex equals the wait index, on the first poll after a
      restore or any later one, does exactly what scanning it would. */
  lemma {:induction false} SkipIsHarmless(log: Log, restored: nat, replies: seq<Reply>, r: Reply)
    requires AllHonest(log, replies) && Honest(log, r)
    requires r.Listing? && r.lastIndex == Polled(restored, replies).wait
    ensures Scan(Polled(restored, replies), r.lastIndex, r.jobs) == Polled(restored, replies)
  {
    var w := Polled(restored, replies);
    WaitIndexShowsNothingNew(log, restored, replies);
    NothingAbove(r.jobs, w.cursor);
  }

  /** Over a whole run the shortcut changes neither what is handed over nor the cursor. */
  lemma {:induction false} SkippingPreservesMeaning(log: Log, restored: nat, replies: seq<Reply>)
    requires AllHonest(log, replies)
    ensures Polled(restored, replies) == PolledAlways(restored, replies)
  {
    if replies != [] {
      var init, last := replies[..|replies| - 1], replies[|replies| - 1];
      SkippingPreservesMeaning(log, restored, init);
      if last.Listing? && last.lastIndex == Polled(restored, init).wait {
        SkipIsHarmless(log, restored, init, last);
      }
    }
  }

  // ---- never twice, and exactly which versions ----

  lemma {:induction false} HandedBounds(restored: nat, replies: seq<Reply>, v: Stub)
    requires v in Polled(restored, replies).handed
    ensures restored < v.index <= Polled(restored, replies).cursor
    ensures restored <= Polled(restored, replies).cursor
  {
    if replies != [] {
      var init, last := replies[..|replies| - 1], replies[|replies| - 1];
      var w := Polled(restored, init);
      if v in w.handed {
        HandedBounds(restored, init, v);
      } else {
        CursorGrows(restored, init, |init|);
        AboveMember(last.jobs, w.cursor, v);
      }
    }
  }

  lemma {:induction false} CursorGrows(restored: nat, replies: seq<Reply>, n: nat)
    requires n <= |replies|
    ensures restored <= Polled(restored, replies[..n]).cursor <= Polled(restored, replies).cursor
  {
    if n < |replies| {
      var init := replies[..|replies| - 1];
      CursorGrows(restored, init, n);
      assert init[..n] == replies[..n];
    } else {
      assert replies[..n] == replies;
      if n > 0 {
        CursorGrows(restored, replies[..n - 1], n - 1);
        assert replies[..n - 1][..n - 1] == replies[..n - 1];
      }
    }
  }

  /** However stale, repeated or shuffled the answers are, no version of an object is handed
      over twice. */
  lemma {:induction false} NeverTwice(log: Log, restored: nat, replies: seq<Reply>)
    requires AllHonest(log, replies)
    ensures Distinct(Polled(restored, replies).handed)
  {
    if replies != [] {
      var init, last := replies[..|replies| - 1], replies[|replies| - 1];
      var w := Polled(restored, init);
      NeverTwice(log, restored, init);
      if last.Listing? && last.lastIndex != w.wait {
        assert Honest(log, last);
        AboveDistinct(last.jobs, w.cursor);
        forall v | v in w.handed ensures v !in Above(last.jobs, w.cursor) {
          HandedBounds(restored, init, v);
          AboveMember(last.jobs, w.cursor, v);
        }
        DistinctJoin(w.handed, Above(last.jobs, w.cursor));
      }
    }
  }

  /** Versions of one object come in increasing order. */
  ghost predicate InOrder(s: seq<Stub>) {
    forall a, b :: 0 <= a < b < |s| && s[a].id == s[b].id ==> s[a].index < s[b].index
  }

  ghost predicate DistinctIds(s: seq<Stub>) {
    forall a, b :: 0 <= a < b < |s| ==> s[a].id != s[b].id
  }

  lemma {:induction false} AboveDistinctIds(jobs: seq<Stub>, cursor: nat)
    requires DistinctIds(jobs)
    ensures DistinctIds(Above(jobs, cursor))
  {
    if jobs != [] {
      var init, last := jobs[..|jobs| - 1], jobs[|jobs| - 1];
      AboveDistinctIds(init, cursor);
      var rows := Above(init, cursor);
      forall a | 0 <= a < |rows| ensures rows[a].id != last.id {
        AboveMember(init, cursor, rows[a]);
      }
    }
  }

  lemma InOrderJoin(s: seq<Stub>, t: seq<Stub>, cursor: nat)
    requires InOrder(s) && DistinctIds(t)
    requires (forall v :: v in s ==> v.index <= cursor) && (forall v :: v in t ==> v.index > cursor)
    ensures InOrder(s + t)
  {
    forall a, b | 0 <= a < b < |s + t| && (s + t)[a].id == (s + t)[b].id
      ensures (s + t)[a].index < (s + t)[b].index
    {
      if a < |s| <= b {
        assert s[a] in s && t[b - |s|] in t;
      }
    }
  }

  /** However stale or shuffled the answers are, the versions of each object are handed over in
      increasing order, also across its deletion and creation. */
  lemma {:induction false} HandedInOrder(log: Log, restored: nat, replies: seq<Reply>)
    requires AllHonest(log, replies)
    ensures InOrder(Polled(restored, replies).handed)
  {
    if replies != [] {
      var init, last := replies[..|replies| - 1], replies[|replies| - 1];
      var w := Polled(restored, init);
      HandedInOrder(log, restored, init);
      if last.Listing? && last.lastIndex != w.wait {
        assert Honest(log, last);
        AboveDistinctIds(last.jobs, w.cursor);
        forall v | v in w.handed ensures v.index <= w.cursor {
          HandedBounds(restored, init, v);
        }
        forall v | v in Above(last.jobs, w.cursor) ensures v.index > w.cursor {
          AboveMember(last.jobs, w.cursor, v);
        }
        InOrderJoin(w.handed, Above(last.jobs, w.cursor), w.cursor);
      }
    }
  }

  /** The version was listed above the restore value in some answer. */
  ghost predicate Seen(replies: seq<Reply>, v: Stub) {
    exists k :: 0 <= k < |replies| && replies[k].Listing? && v in replies[k].jobs
  }

  /** No answer before the k-th listed anything at or above index m. */
  ghost predicate AllEarlierBelow(replies: seq<Reply>, k: nat, m: nat)
    requires k <= |replies|
  {
    forall a, b :: 0 <= a < k && replies[a].Listing? && 0 <= b < |replies[a].jobs| ==> replies[a].jobs[b].index < m
  }

  lemma EarlierBelowNext(replies: seq<Reply>, r: Reply, m: nat)
    ensures AllEarlierBelow(replies + [r], |replies| + 1, m) <==>
            AllEarlierBelow(replies, |replies|, m) &&
            (r.Listing? ==> forall b :: 0 <= b < |r.jobs| ==> r.jobs[b].index < m)
  {
    var all := replies + [r];
    if AllEarlierBelow(all, |all|, m) {
      forall a, b | 0 <= a < |replies| && replies[a].Listing? && 0 <= b < |replies[a].jobs|
        ensures replies[a].jobs[b].index < m
      {
        assert all[a] == replies[a];
      }
      assert all[|replies|] == r;
    }
  }

  lemma {:induction false} ScansTakeMaximum(restored: nat, replies: seq<Reply>, m: nat)
    ensures PolledAlways(restored, replies).cursor < m <==> restored < m && AllEarlierBelow(replies, |replies|, m)
  {
    if replies != [] {
      var init, last := replies[..|replies| - 1], replies[|replies| - 1];
      ScansTakeMaximum(restored, init, m);
      assert replies == init + [last];
      EarlierBelowNext(init, last, m);
    }
  }

  /** The cursor is the maximum of the restore value and every index listed so far. */
  lemma {:induction false} CursorIsMaximum(log: Log, restored: nat, replies: seq<Reply>, m: nat)
    requires AllHonest(log, replies)
    ensures Polled(restored, replies).cursor < m <==> restored < m && AllEarlierBelow(replies, |replies|, m)
  {
    SkippingPreservesMeaning(log, restored, replies);
    ScansTakeMaximum(restored, replies, m);
  }

  /** Exactly which versions poll k hands over: those listed in it whose index is above the
      restore value and above everything listed before. */
  lemma {:induction false} HandedAtPoll(log: Log, restored: nat, replies: seq<Reply>, k: nat, v: Stub)
    requires AllHonest(log, replies) && k < |replies| && replies[k].Listing?
    ensures v in Above(replies[k].jobs, Polled(restored, replies[..k]).cursor) <==>
            v in replies[k].jobs && v.index > restored && AllEarlierBelow(replies, k, v.index)
    ensures Polled(restored, replies[..k + 1]).handed ==
            Polled(restored, replies[..k]).handed + Above(replies[k].jobs, Polled(restored, replies[..k]).cursor)
  {
    var init := replies[..k];
    assert replies[..k + 1][..k] == init;
    CursorIsMaximum(log, restored, init, v.index);
    AboveMember(replies[k].jobs, Polled(restored, init).cursor, v);
    assert AllEarlierBelow(init, k, v.index) <==> AllEarlierBelow(replies, k, v.index);
    assert Honest(log, replies[k]);
    if replies[k].lastIndex == Polled(restored, init).wait {
      SkipIsHarmless(log, restored, init, replies[k]);
    }
  }

  // ---- the cursor as a fast form of a full history ----

  /** The simple form: remember every version ever listed and hand over the new ones above
      the restore value. */
  function Unseen(jobs: seq<Stub>, restored: nat, seen: set<Stub>): seq<Stub> {
    if jobs == [] then [] else
    var rest := Unseen(jobs[..|jobs| - 1], restored, seen);
    var last := jobs[|jobs| - 1];
    if last.index <= restored || last in seen then rest else rest + [last]
  }

  function Listed(jobs: seq<Stub>): set<Stub> {
    set v | v in jobs
  }

  datatype History = History(seen: set<Stub>, handed: seq<Stub>)

  function Remember(restored: nat, replies: seq<Reply>): History {
    if replies == [] then History({}, []) else
    var h := Remember(restored, replies[..|replies| - 1]);
    match replies[|replies| - 1]
    case ListError => h
    case Listing(_, jobs) => History(h.seen + Listed(jobs), h.handed + Unseen(jobs, restored, h.seen))
  }

  /** The LastIndex of successive answers never goes back. */
  ghost predicate NonRegressing(replies: seq<Reply>) {
    forall a, b :: 0 <= a < b < |replies| && replies[a].Listing? && replies[b].Listing? ==>
      replies[a].lastIndex <= replies[b].lastIndex
  }

  lemma {:induction false} SeenIsRemembered(restored: nat, replies: seq<Reply>, v: Stub)
    ensures v in Remember(restored, replies).seen <==> Seen(replies, v)
  {
    if replies != [] {
      var init, last := replies[..|replies| - 1], replies[|replies| - 1];
      SeenIsRemembered(restored, init, v);
      if Seen(init, v) {
        var k :| 0 <= k < |init| && init[k].Listing? && v in init[k].jobs;
        assert replies[k] == init[k];
      }
      if Seen(replies, v) {
        var k :| 0 <= k < |replies| && replies[k].Listing? && v in replies[k].jobs;
        assert k < |init| ==> init[k] == replies[k];
      }
      if last.Listing? && v in last.jobs {
        assert replies[|replies| - 1] == last;
      }
    }
  }

  /** With answers that do not go back, a row of the next answer is above the cursor exactly
      when it is above the restore value and was never listed before. */
  lemma {:induction false} CursorSeparates(log: Log, restored: nat, replies: seq<Reply>, r: Reply, v: Stub)
    requires AllHonest(log, replies + [r]) && NonRegressing(replies + [r])
    requires r.Listing? && v in r.jobs
    ensures v.index > Polled(restored, replies).cursor <==> v.index > restored && !Seen(replies, v)
  {
    var all := replies + [r];
    assert forall k :: 0 <= k < |replies| ==> replies[k] == all[k];
    assert AllHonest(log, replies);
    assert Honest(log, all[|replies|]);
    CursorIsMaximum(log, restored, replies, v.index);
    if v.index > restored && !AllEarlierBelow(replies, |replies|, v.index) {
      var a, b :| 0 <= a < |replies| && replies[a].Listing? && 0 <= b < |replies[a].jobs| &&
                  replies[a].jobs[b].index >= v.index;
      var i := replies[a].lastIndex;
      assert Honest(log, replies[a]) && all[a] == replies[a];
      LiveBounds(log, i, replies[a].jobs[b].id);
      LivePersists(log, i, r.lastIndex, v.id);
      assert Stub(v.id, Live(log, i)[v.id]) in replies[a].jobs;
      assert v in replies[a].jobs;
      assert Seen(replies, v);
    }
    if Seen(replies, v) {
      var a :| 0 <= a < |replies| && replies[a].Listing? && v in replies[a].jobs;
      var b :| 0 <= b < |replies[a].jobs| && replies[a].jobs[b] == v;
      assert !AllEarlierBelow(replies, |replies|, v.index);
    }
  }

  lemma {:induction false} SameFilter(jobs: seq<Stub>, cursor: nat, restored: nat, seen: set<Stub>)
    requires forall v :: v in jobs ==> (v.index > cursor <==> v.index > restored && v !in seen)
    ensures Above(jobs, cursor) == Unseen(jobs, restored, seen)
  {
    if jobs != [] {
      SameFilter(jobs[..|jobs| - 1], cursor, restored, seen);
      assert jobs[|jobs| - 1] in jobs;
    }
  }

  /** Within one incarnation the integer cursor hands over the same versions in the same
      order as the full history, whenever the answers do not go back. */
  lemma {:induction false} CursorRefinesHistory(log: Log, restored: nat, replies: seq<Reply>)
    requires AllHonest(log, replies) && NonRegressing(replies)
    ensures Polled(restored, replies).handed == Remember(restored, replies).handed
  {
    if replies != [] {
      var init, last := replies[..|replies| - 1], replies[|replies| - 1];
      assert init + [last] == replies;
      CursorRefinesHistory(log, restored, init);
      if last.Listing? {
        var w := Polled(restored, init);
        assert Honest(log, last);
        forall v | v in last.jobs
          ensures v.index > w.cursor <==> v.index > restored && v !in Remember(restored, init).seen
        {
          CursorSeparates(log, restored, init, last, v);
          SeenIsRemembered(restored, init, v);
        }
        SameFilter(last.jobs, w.cursor, restored, Remember(restored, init).seen);
        if last.lastIndex == w.wait {
          SkipIsHarmless(log, restored, init, last);
        }
      }
    }
  }

  // ---- convergence under stale answers ----

  /** Every version shown at index i that is above the restore value and not above the
      cursor was handed over, provided no answer so far was newer than i. */
  lemma {:induction false} CoveredUpToCursor(log: Log, restored: nat, replies: seq<Reply>, i: nat, id: string)
    requires AllHonest(log, replies) && i <= |log|
    requires forall k :: 0 <= k < |replies| && replies[k].Listing? ==> replies[k].lastIndex <= i
    requires id in Live(log, i) && restored < Live(log, i)[id] <= Polled(restored, replies).cursor
    ensures Stub(id, Live(log, i)[id]) in Polled(restored, replies).handed
  {
    var v := Stub(id, Live(log, i)[id]);
    if replies != [] {
      var init, last := replies[..|replies| - 1], replies[|replies| - 1];
      var w := Polled(restored, init);
      if v.index <= w.cursor {
        CoveredUpToCursor(log, restored, init, i, id);
      } else {
        assert Honest(log, last);
        var k :| 0 <= k < |last.jobs| && last.jobs[k].index == Polled(restored, replies).cursor;
        LiveBounds(log, last.lastIndex, last.jobs[k].id);
        LivePersists(log, last.lastIndex, i, id);
        AboveMember(last.jobs, w.cursor, v);
      }
    }
  }

  /** Once the newest answer so far has been processed, every object in it above the restore
      value has been handed over at exactly the version it shows, whatever stale answers came
      before and whatever was deleted in between. */
  lemma {:induction false} Convergence(log: Log, restored: nat, replies: seq<Reply>, id: string)
    requires AllHonest(log, replies) && replies != [] && replies[|replies| - 1].Listing?
    requires forall k :: 0 <= k < |replies| && replies[k].Listing? ==>
               replies[k].lastIndex <= replies[|replies| - 1].lastIndex
    requires id in Live(log, replies[|replies| - 1].lastIndex)
    requires Live(log, replies[|replies| - 1].lastIndex)[id] > restored
    ensures Stub(id, Live(log, replies[|replies| - 1].lastIndex)[id]) in Polled(restored, replies).handed
  {
    var last := replies[|replies| - 1];
    var live := Live(log, last.lastIndex);
    assert Honest(log, last);
    var k :| 0 <= k < |last.jobs| && last.jobs[k] == Stub(id, live[id]);
    SkippingPreservesMeaning(log, restored, replies);
    assert last.jobs[k].index <= PolledAlways(restored, replies).cursor;
    CoveredUpToCursor(log, restored, replies, last.lastIndex, id);
  }

  lemma ScanOfOne(w: State, i: nat, v: Stub)
    ensures Scan(w, i, [v]) ==
            if v.index <= w.cursor then w.(wait := i) else State(i, v.index, w.handed + [v])
  {
    assert [v][..0] == [];
    assert Above([v], w.cursor) == if v.index <= w.cursor then [] else [v];
    assert w.handed + [] == w.handed;
  }

  /** One commit creates the object of `a`, the next deletes it and creates the object of `b`. */
  function CreateThenReplace(a: Stub, b: Stub): Log {
    [map[a.id := Upsert], map[a.id := Delete, b.id := Upsert]]
  }

  lemma AnswersOfCreateThenReplace(a: Stub, b: Stub)
    requires a.id != b.id && a.index == 1 && b.index == 2
    ensures Lists([a], Live(CreateThenReplace(a, b), 1)) && Lists([b], Live(CreateThenReplace(a, b), 2))
  {
    var log := CreateThenReplace(a, b);
    assert Live(log, 0) == map[];
    assert Live(log, 1) == map[a.id := 1];
    assert Live(log, 2) == map[b.id := 2];
    assert [a][0] == a && [b][0] == b;
  }

  /** Convergence needs the answer to be the newest so far: a version that only a stale
      answer shows, after its object was deleted, is never handed over. */
  lemma StaleAnswerCanMiss(a: Stub, b: Stub)
    requires a.id != b.id && a.index == 1 && b.index == 2
    ensures AllHonest(CreateThenReplace(a, b), [Listing(2, [b]), Listing(1, [a])])
    ensures Polled(0, [Listing(2, [b]), Listing(1, [a])]) == State(1, 2, [b])
  {
    AnswersOfCreateThenReplace(a, b);
    var newer, older := Listing(2, [b]), Listing(1, [a]);
    assert [newer, older][..1] == [newer] && [newer][..0] == [];
    ScanOfOne(State(0, 0, []), 2, b);
    assert Polled(0, [newer]) == State(2, 2, [b]);
    ScanOfOne(State(2, 2, [b]), 1, a);
  }
}

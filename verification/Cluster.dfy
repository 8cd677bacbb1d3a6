/** Nomad's replicated state as its list and info endpoints expose it: an append-only
    log of commits. Commit number i (counting from 1) gives every object it upserts the
    ModifyIndex i, and a list answered at LastIndex i shows the newest version of every
    object still alive after the first i commits. */
module Cluster {

  datatype Change = Upsert | Delete

  /** The watched objects one commit touches: possibly several, possibly none. */
  type Commit = map<string, Change>

  type Log = seq<Commit>

  /** One row of a list answer. */
  datatype Stub = Stub(id: string, index: nat)

  function Touch(live: map<string, nat>, commit: Commit, index: nat): map<string, nat> {
    map id | id in live.Keys + commit.Keys && (id in commit ==> commit[id].Upsert?) ::
      if id in commit then index else live[id]
  }

  /** The live objects after the first i commits, each with its ModifyIndex. */
  function Live(log: Log, i: nat): map<string, nat>
    requires i <= |log|
  {
    if i == 0 then map[] else Touch(Live(log, i - 1), log[i - 1], i)
  }

  /** `jobs` is some ordering of the objects in `live`, each listed once. */
  ghost predicate Lists(jobs: seq<Stub>, live: map<string, nat>) {
    && (forall a, b :: 0 <= a < b < |jobs| ==> jobs[a].id != jobs[b].id)
    && (forall k :: 0 <= k < |jobs| ==> jobs[k].id in live && live[jobs[k].id] == jobs[k].index)
    && (forall id :: id in live ==> Stub(id, live[id]) in jobs)
  }

  /** Version m of an object is the live one at index i exactly when commit m wrote it
      and no later commit up to i touched the object. */
  ghost predicate Current(log: Log, i: nat, id: string, m: nat)
    requires i <= |log|
  {
    && 1 <= m <= i
    && id in log[m - 1] && log[m - 1][id].Upsert?
    && forall k :: m <= k < i ==> id !in log[k]
  }

  lemma {:induction false} LiveIsCurrent(log: Log, i: nat, id: string, m: nat)
    requires i <= |log|
    ensures (id in Live(log, i) && Live(log, i)[id] == m) <==> Current(log, i, id, m)
  {
    if i > 0 {
      LiveIsCurrent(log, i - 1, id, m);
      if Current(log, i - 1, id, m) && id !in log[i - 1] {
        assert Current(log, i, id, m);
      }
      if Current(log, i, id, m) && m < i {
        assert id !in log[i - 1];
        assert Current(log, i - 1, id, m);
      }
    }
  }

  lemma {:induction false} LiveBounds(log: Log, i: nat, id: string)
    requires i <= |log| && id in Live(log, i)
    ensures 1 <= Live(log, i)[id] <= i
  {
    LiveIsCurrent(log, i, id, Live(log, i)[id]);
  }

  /** Later commits do not rewrite what an earlier index showed. */
  lemma {:induction false} LiveOfPrefix(log: Log, more: Log, i: nat)
    requires i <= |log|
    ensures Live(log + more, i) == Live(log, i)
  {
    if i > 0 {
      LiveOfPrefix(log, more, i - 1);
    }
  }

  /** A version that is live at k and was written by commit i or earlier was already the
      live version at i: this is what makes one integer stand for a set of versions. */
  lemma {:induction false} LivePersists(log: Log, i: nat, k: nat, id: string)
    requires i <= k <= |log|
    requires id in Live(log, k) && Live(log, k)[id] <= i
    ensures id in Live(log, i) && Live(log, i)[id] == Live(log, k)[id]
  {
    var m := Live(log, k)[id];
    LiveIsCurrent(log, k, id, m);
    LiveIsCurrent(log, i, id, m);
  }

  /** An object seen live at i and again at k never shows an older version at k, even if
      it was deleted and created again in between. */
  lemma {:induction false} LiveAdvances(log: Log, i: nat, k: nat, id: string)
    requires i <= k <= |log|
    requires id in Live(log, i) && id in Live(log, k)
    ensures Live(log, i)[id] <= Live(log, k)[id]
  {
    LiveBounds(log, i, id);
    if Live(log, k)[id] <= i {
      LivePersists(log, i, k, id);
    }
  }
}

/** The evaluation watcher compares ModifyIndex with the previous LastIndex for equality. It
    is not the cursor machine of the other watchers and does not have their guarantees. */
module Evaluations {
  import opened Cluster
  import opened Watcher

  /** The rows one answer publishes. */
  function Matching(evals: seq<Stub>, index: nat): seq<Stub> {
    if evals == [] then [] else
    var rest := Matching(evals[..|evals| - 1], index);
    var last := evals[|evals| - 1];
    if last.index == index then rest + [last] else rest
  }

  datatype EvalState = EvalState(index: nat, published: seq<Stub>)

  function Evaluated(restored: nat, replies: seq<Reply>): EvalState {
    if replies == [] then EvalState(restored, []) else
    var s := Evaluated(restored, replies[..|replies| - 1]);
    match replies[|replies| - 1]
    case ListError => s
    case Listing(lastIndex, evals) =>
      if lastIndex == s.index then s else EvalState(lastIndex, s.published + Matching(evals, s.index))
  }

  class Firehose {
    var lastChangeIndex: nat
    var published: seq<Stub>

    constructor (restored: nat)
      ensures lastChangeIndex == restored && published == []
    {
      lastChangeIndex := restored;
      published := [];
    }

    method Watch(replies: seq<Reply>) returns (waitIndex: nat)
      modifies this
      ensures waitIndex == lastChangeIndex == Evaluated(old(lastChangeIndex), replies).index
      ensures published == old(published) + Evaluated(old(lastChangeIndex), replies).published
    {
      waitIndex := lastChangeIndex;
      ghost var restored, before := lastChangeIndex, published;
      for n := 0 to |replies|
        invariant waitIndex == lastChangeIndex == Evaluated(restored, replies[..n]).index
        invariant published == before + Evaluated(restored, replies[..n]).published
      {
        assert replies[..n + 1][..n] == replies[..n];
        if replies[n].Listing? && replies[n].lastIndex != lastChangeIndex {
          var evals := replies[n].jobs;
          ghost var sofar := published;
          for k := 0 to |evals|
            invariant lastChangeIndex == Evaluated(restored, replies[..n]).index
            invariant published == sofar + Matching(evals[..k], lastChangeIndex)
          {
            assert evals[..k + 1][..k] == evals[..k];
            if evals[k].index == lastChangeIndex {
              published := published + [evals[k]];
            }
          }
          assert evals[..|evals|] == evals;
          lastChangeIndex := replies[n].lastIndex;
          waitIndex := replies[n].lastIndex;
        }
      }
      assert replies[..|replies|] == replies;
    }
  }

  /** Where a published row stands in the list. */
  lemma {:induction false} MatchingPlace(evals: seq<Stub>, index: nat, p: nat) returns (i: nat)
    requires p < |Matching(evals, index)|
    ensures i < |evals| && evals[i] == Matching(evals, index)[p]
  {
    i := |evals| - 1;
    if p < |Matching(evals[..i], index)| {
      i := MatchingPlace(evals[..i], index, p);
    }
  }

  /** The rows of one answer are published in the order of the list. */
  lemma {:induction false} MatchingInOrder(evals: seq<Stub>, index: nat, p: nat, q: nat) returns (i: nat, j: nat)
    requires p < q < |Matching(evals, index)|
    ensures i < j < |evals| && evals[i] == Matching(evals, index)[p] && evals[j] == Matching(evals, index)[q]
  {
    j := |evals| - 1;
    if q < |Matching(evals[..j], index)| {
      i, j := MatchingInOrder(evals[..j], index, p, q);
    } else {
      i := MatchingPlace(evals[..j], index, p);
    }
  }

  lemma {:induction false} MatchingMember(evals: seq<Stub>, index: nat, v: Stub)
    ensures v in Matching(evals, index) <==> v in evals && v.index == index
  {
    if evals != [] {
      MatchingMember(evals[..|evals| - 1], index, v);
      assert evals == evals[..|evals| - 1] + [evals[|evals| - 1]];
    }
  }

  lemma {:induction false} MatchingDistinct(evals: seq<Stub>, index: nat)
    requires Distinct(evals)
    ensures Distinct(Matching(evals, index))
  {
    if evals != [] {
      var init, last := evals[..|evals| - 1], evals[|evals| - 1];
      MatchingDistinct(init, index);
      MatchingMember(init, index, last);
    }
  }

  // ---- exactly what is published ----

  lemma {:induction false} IndexIsLastListed(restored: nat, replies: seq<Reply>)
    ensures Evaluated(restored, replies).index == LastListed(restored, replies)
  {
    if replies != [] {
      IndexIsLastListed(restored, replies[..|replies| - 1]);
    }
  }

  /** Answer k lists the version while the LastIndex of the list before it is the version's
      ModifyIndex, and answer k has another LastIndex. */
  ghost predicate Hit(restored: nat, replies: seq<Reply>, k: nat, v: Stub) {
    && k < |replies| && replies[k].Listing? && v in replies[k].jobs
    && v.index == LastListed(restored, replies[..k]) != replies[k].lastIndex
  }

  lemma HitOfInit(restored: nat, replies: seq<Reply>, k: nat, v: Stub)
    requires k + 1 < |replies|
    ensures Hit(restored, replies, k, v) <==> Hit(restored, replies[..|replies| - 1], k, v)
  {
    assert replies[..|replies| - 1][..k] == replies[..k];
  }

  /** What the last answer adds. */
  lemma LastAdds(restored: nat, replies: seq<Reply>, v: Stub)
    requires replies != []
    ensures var n := |replies| - 1;
            v in Evaluated(restored, replies).published <==>
            v in Evaluated(restored, replies[..n]).published || Hit(restored, replies, n, v)
  {
    var n := |replies| - 1;
    IndexIsLastListed(restored, replies[..n]);
    if replies[n].Listing? {
      MatchingMember(replies[n].jobs, LastListed(restored, replies[..n]), v);
    }
  }

  lemma {:induction false} HitIsPublished(restored: nat, replies: seq<Reply>, k: nat, v: Stub)
    requires Hit(restored, replies, k, v)
    ensures v in Evaluated(restored, replies).published
    decreases |replies|
  {
    LastAdds(restored, replies, v);
    if k + 1 < |replies| {
      HitOfInit(restored, replies, k, v);
      HitIsPublished(restored, replies[..|replies| - 1], k, v);
    }
  }

  lemma {:induction false} PublishedIsHit(restored: nat, replies: seq<Reply>, v: Stub) returns (k: nat)
    requires v in Evaluated(restored, replies).published
    ensures Hit(restored, replies, k, v)
  {
    LastAdds(restored, replies, v);
    k := |replies| - 1;
    if !Hit(restored, replies, k, v) {
      k := PublishedIsHit(restored, replies[..|replies| - 1], v);
      HitOfInit(restored, replies, k, v);
    }
  }

  /** Whatever the answers are, a version is published exactly when some answer hits it; a
      version whose ModifyIndex was never the last LastIndex received is never published. */
  lemma {:induction false} PublishedExactlyOnHits(restored: nat, replies: seq<Reply>, v: Stub)
    ensures v in Evaluated(restored, replies).published <==> exists k: nat :: Hit(restored, replies, k, v)
  {
    if v in Evaluated(restored, replies).published {
      var k := PublishedIsHit(restored, replies, v);
    }
    if k: nat :| Hit(restored, replies, k, v) {
      HitIsPublished(restored, replies, k, v);
    }
  }

  /** A run publishes in the order of the answers and, within one answer, of its list: the rows
      published by the answers from the n-th on come after all earlier ones. */
  lemma {:induction false} PublishedInOrder(restored: nat, replies: seq<Reply>, n: nat)
    requires n < |replies|
    ensures Evaluated(restored, replies[..n + 1]).published ==
            Evaluated(restored, replies[..n]).published +
            if replies[n].Listing? && replies[n].lastIndex != LastListed(restored, replies[..n])
            then Matching(replies[n].jobs, LastListed(restored, replies[..n])) else []
  {
    assert replies[..n + 1][..n] == replies[..n];
    IndexIsLastListed(restored, replies[..n]);
  }

  // ---- how often ----

  /** The positions of the answers that hit the version. */
  ghost function Hits(restored: nat, replies: seq<Reply>, v: Stub): set<nat> {
    set k: nat | k < |replies| && Hit(restored, replies, k, v)
  }

  lemma HitsSplit(restored: nat, replies: seq<Reply>, v: Stub, n: nat)
    requires |replies| == n + 1
    ensures Hits(restored, replies, v) ==
            Hits(restored, replies[..n], v) + if Hit(restored, replies, n, v) then {n} else {}
  {
    forall k: nat | k < n ensures Hit(restored, replies, k, v) <==> Hit(restored, replies[..n], k, v) {
      HitOfInit(restored, replies, k, v);
    }
  }

  lemma {:induction false} HitsNext(restored: nat, replies: seq<Reply>, v: Stub)
    requires replies != []
    ensures var n := |replies| - 1;
            |Hits(restored, replies, v)| ==
            |Hits(restored, replies[..n], v)| + if Hit(restored, replies, n, v) then 1 else 0
  {
    var n: nat := |replies| - 1;
    HitsSplit(restored, replies, v, n);
    assert n !in Hits(restored, replies[..n], v);
  }

  lemma {:induction false} DistinctCount(s: seq<Stub>, v: Stub)
    requires Distinct(s)
    ensures multiset(s)[v] == if v in s then 1 else 0
  {
    if s != [] {
      var init, last := s[..|s| - 1], s[|s| - 1];
      DistinctCount(init, v);
      assert s == init + [last];
    }
  }

  /** A version is published once per answer that hits it. */
  lemma {:induction false} PublishedOncePerHit(restored: nat, replies: seq<Reply>, v: Stub)
    requires forall k :: 0 <= k < |replies| && replies[k].Listing? ==> Distinct(replies[k].jobs)
    ensures multiset(Evaluated(restored, replies).published)[v] == |Hits(restored, replies, v)|
  {
    if replies != [] {
      var n := |replies| - 1;
      var s := Evaluated(restored, replies[..n]);
      PublishedOncePerHit(restored, replies[..n], v);
      HitsNext(restored, replies, v);
      IndexIsLastListed(restored, replies[..n]);
      if replies[n].Listing? {
        MatchingDistinct(replies[n].jobs, s.index);
        MatchingMember(replies[n].jobs, s.index, v);
        DistinctCount(Matching(replies[n].jobs, s.index), v);
      }
    }
  }

  lemma {:induction false} LastListedBefore(restored: nat, replies: seq<Reply>, i: nat)
    requires restored <= i && forall k :: 0 <= k < |replies| && replies[k].Listing? ==> replies[k].lastIndex <= i
    ensures LastListed(restored, replies) <= i
  {
    if replies != [] {
      LastListedBefore(restored, replies[..|replies| - 1], i);
    }
  }

  /** While the LastIndex values do not go back, below the restored value or below one
      another, no version is published twice, through any number of errors and repeats. */
  lemma {:induction false} PublishedOnce(restored: nat, replies: seq<Reply>)
    requires NonRegressing(replies)
    requires forall k :: 0 <= k < |replies| && replies[k].Listing? ==>
               restored <= replies[k].lastIndex && Distinct(replies[k].jobs)
    ensures Distinct(Evaluated(restored, replies).published)
    ensures forall v :: v in Evaluated(restored, replies).published ==> v.index < LastListed(restored, replies)
  {
    if replies != [] {
      var n := |replies| - 1;
      var init, last := replies[..n], replies[n];
      PublishedOnce(restored, init);
      IndexIsLastListed(restored, init);
      var s := Evaluated(restored, init);
      if last.Listing? && last.lastIndex != s.index {
        LastListedBefore(restored, init, last.lastIndex);
        MatchingDistinct(last.jobs, s.index);
        forall v | v in Matching(last.jobs, s.index) ensures v.index == s.index {
          MatchingMember(last.jobs, s.index, v);
        }
        DistinctJoin(s.published, Matching(last.jobs, s.index));
      }
    }
  }

  /** One commit creates the object of v, the next touches nothing. */
  function CreateThenIdle(v: Stub): Log {
    [map[v.id := Upsert], map[]]
  }

  lemma AnswersOfCreateThenIdle(v: Stub, i: nat)
    requires v.index == 1 <= i <= 2
    ensures Honest(CreateThenIdle(v), Listing(i, [v]))
  {
    var log := CreateThenIdle(v);
    assert Live(log, 0) == map[];
    assert Live(log, 1) == map[v.id := 1];
    assert Live(log, 2) == map[v.id := 1];
    assert [v][0] == v;
  }

  lemma EvaluatedNext(restored: nat, replies: seq<Reply>, i: nat, v: Stub)
    requires i != Evaluated(restored, replies).index
    ensures var s := Evaluated(restored, replies);
            Evaluated(restored, replies + [Listing(i, [v])]) ==
            EvalState(i, if v.index == s.index then s.published + [v] else s.published)
  {
    var s := Evaluated(restored, replies);
    assert (replies + [Listing(i, [v])])[..|replies|] == replies;
    assert [v][..0] == [];
    assert Matching([v], s.index) == if v.index == s.index then [v] else [];
  }

  /** Once answers go back, the same version is published again: restored at 1, the answers at
      2, 1 and 2 publish v twice. */
  lemma GoingBackPublishesTwice(v: Stub)
    requires v.index == 1
    ensures AllHonest(CreateThenIdle(v), [Listing(2, [v]), Listing(1, [v]), Listing(2, [v])])
    ensures Evaluated(1, [Listing(2, [v]), Listing(1, [v]), Listing(2, [v])]).published == [v, v]
  {
    AnswersOfCreateThenIdle(v, 1);
    AnswersOfCreateThenIdle(v, 2);
    var newer, older := Listing(2, [v]), Listing(1, [v]);
    EvaluatedNext(1, [], 2, v);
    assert [] + [newer] == [newer];
    EvaluatedNext(1, [newer], 1, v);
    assert [newer] + [older] == [newer, older];
    EvaluatedNext(1, [newer, older], 2, v);
    assert [newer, older] + [newer] == [newer, older, newer];
  }
}

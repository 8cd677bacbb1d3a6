/** The checkpoint texts of the composed system are those of the manager's loop: what reaches
    the Consul key is what some incarnation wrote, and the manager events a run contains for
    one incarnation are those `Leadership.Manager` leaves in a term. */
module CheckpointTexts {
  import opened Checkpoint
  import opened Cluster
  import opened Watcher
  import opened Replication
  import L = Leadership

  // ---- where the texts come from ----

  /** The key and every write on its way hold a text some incarnation wrote, and every
      incarnation started from an error, an absent key or such a text. */
  ghost predicate AllWritten(s: System) {
    && (forall text :: text in s.landing ==> Written(s.processes, text))
    && (s.kv == Missing || (s.kv.Found? && Written(s.processes, s.kv.text)))
    && forall i :: 0 <= i < |s.processes| ==> Led(s.processes, s.processes[i].restored)
  }

  ghost predicate Led(ps: seq<Process>, restored: nat) {
    exists read :: Readable(ps, read) && restored == RestoredCursor(read)
  }

  ghost predicate SavedGrows(ps: seq<Process>, qs: seq<Process>) {
    && |ps| <= |qs|
    && forall i :: 0 <= i < |ps| ==> ps[i].saved <= qs[i].saved && ps[i].restored == qs[i].restored
  }

  lemma WrittenGrows(ps: seq<Process>, qs: seq<Process>, text: string)
    requires Written(ps, text) && SavedGrows(ps, qs)
    ensures Written(qs, text)
  {
    var i, k :| 0 <= i < |ps| && 0 <= k < |ps[i].saved| && text == PrintNat(ps[i].saved[k]);
    assert qs[i].saved[k] == ps[i].saved[k];
  }

  lemma ReadableGrows(ps: seq<Process>, qs: seq<Process>, read: KvRead)
    requires Readable(ps, read) && SavedGrows(ps, qs)
    ensures Readable(qs, read)
  {
    if read.Found? { WrittenGrows(ps, qs, read.text); }
  }

  lemma LedGrows(ps: seq<Process>, qs: seq<Process>, restored: nat)
    requires Led(ps, restored) && SavedGrows(ps, qs)
    ensures Led(qs, restored)
  {
    var read :| Readable(ps, read) && restored == RestoredCursor(read);
    ReadableGrows(ps, qs, read);
  }

  lemma ActGrowsSaved(s: System, a: Action)
    requires CanAct(s, a)
    ensures SavedGrows(s.processes, Act(s, a).processes)
  {
    if a.Local? { StepKeepsSaved(s.log, s.processes[a.who], a.step); }
  }

  lemma NewText(s: System, who: nat)
    requires CanAct(s, Checkpoint(who))
    ensures Written(Act(s, Checkpoint(who)).processes, PrintNat(s.processes[who].slot.value))
  {
    var q := Act(s, Checkpoint(who)).processes[who];
    assert q.saved[|q.saved| - 1] == s.processes[who].slot.value;
  }

  lemma {:induction false} TextsStayWritten(s: System, a: Action)
    requires AllWritten(s) && CanAct(s, a)
    ensures var t := Act(s, a);
            && (forall text :: text in t.landing ==> Written(t.processes, text))
            && (t.kv == Missing || (t.kv.Found? && Written(t.processes, t.kv.text)))
  {
    var t := Act(s, a);
    ActGrowsSaved(s, a);
    if a.Checkpoint? { NewText(s, a.who); }
    forall text | Written(s.processes, text) ensures Written(t.processes, text) {
      WrittenGrows(s.processes, t.processes, text);
    }
  }

  lemma {:induction false} LedStays(s: System, a: Action)
    requires AllWritten(s) && CanAct(s, a)
    ensures forall i :: 0 <= i < |Act(s, a).processes| ==> Led(Act(s, a).processes, Act(s, a).processes[i].restored)
  {
    var t := Act(s, a);
    ActGrowsSaved(s, a);
    forall i | 0 <= i < |t.processes| ensures Led(t.processes, t.processes[i].restored) {
      if i < |s.processes| {
        LedGrows(s.processes, t.processes, s.processes[i].restored);
      } else {
        ReadableGrows(s.processes, t.processes, a.read);
      }
    }
  }

  lemma {:induction false} TextsAreWritten(actions: seq<Action>)
    requires Run(actions).Some?
    ensures AllWritten(Run(actions).value)
  {
    if actions != [] {
      var init, a := actions[..|actions| - 1], actions[|actions| - 1];
      TextsAreWritten(init);
      TextsStayWritten(Run(init).value, a);
      LedStays(Run(init).value, a);
    }
  }

  // ---- the manager events of a run ----

  /** What the manager does first when it leads: lock, restore, start. */
  function Opening(read: KvRead): seq<L.Event> {
    [L.Locked, L.Restored(RestoredValue(read)), L.Started]
  }

  /** The manager events of process i in one action. */
  ghost function EventOf(s: System, a: Action, i: nat): seq<L.Event> {
    match a
    case Lead(read) => if i == |s.processes| then Opening(read) else []
    case Checkpoint(who) =>
      if who == i && CanAct(s, a) then [L.Wrote(PrintNat(s.processes[who].slot.value))] else []
    case _ => []
  }

  /** What the channel of process i delivers to its manager in one action. */
  ghost function DeliveryOf(s: System, a: Action, i: nat): seq<nat> {
    if a == Checkpoint(i) && CanAct(s, a) then [s.processes[i].slot.value] else []
  }

  /** The manager events of process i, read off the actions of the run. */
  ghost function EventsOf(actions: seq<Action>, i: nat): seq<L.Event> {
    if actions == [] then [] else
    var init := actions[..|actions| - 1];
    EventsOf(init, i) + (if Run(init).Some? then EventOf(Run(init).value, actions[|actions| - 1], i) else [])
  }

  /** What its channel delivered in the run. */
  ghost function Delivered(actions: seq<Action>, i: nat): seq<nat> {
    if actions == [] then [] else
    var init := actions[..|actions| - 1];
    Delivered(init, i) + (if Run(init).Some? then DeliveryOf(Run(init).value, actions[|actions| - 1], i) else [])
  }

  function Texts(saved: seq<nat>): seq<string> {
    seq(|saved|, k requires 0 <= k < |saved| => PrintNat(saved[k]))
  }

  lemma {:induction false} NoEventsYet(actions: seq<Action>, i: nat)
    requires Run(actions).Some? && |Run(actions).value.processes| <= i
    ensures EventsOf(actions, i) == [] && Delivered(actions, i) == []
  {
    if actions != [] {
      var init, a := actions[..|actions| - 1], actions[|actions| - 1];
      ActGrowsSaved(Run(init).value, a);
      NoEventsYet(init, i);
    }
  }

  /** One action of a run adds to a process exactly what it delivers to its manager. */
  lemma {:induction false} SavedNow(s: System, a: Action, i: nat)
    requires CanAct(s, a) && i < |s.processes|
    ensures i < |Act(s, a).processes|
    ensures Act(s, a).processes[i].saved == s.processes[i].saved + DeliveryOf(s, a, i)
    ensures EventOf(s, a, i) == L.Writes(Texts(DeliveryOf(s, a, i)))
  {
    if a.Local? { StepKeepsSaved(s.log, s.processes[a.who], a.step); }
  }

  /** The n-th action of the run made process i a leader, restoring from `read`. */
  ghost predicate LedAt(actions: seq<Action>, n: nat, i: nat, read: KvRead) {
    && n < |actions| && actions[n] == Lead(read)
    && Run(actions[..n]).Some? && |Run(actions[..n]).value.processes| == i
  }

  /** What the run so far says of process i: restored value, saved values and events. */
  ghost predicate Recorded(actions: seq<Action>, p: Process, i: nat, read: KvRead) {
    && p.restored == RestoredCursor(read)
    && p.saved == Delivered(actions, i)
    && EventsOf(actions, i) == Opening(read) + L.Writes(Texts(p.saved))
  }

  lemma {:induction false} RecordedFirst(init: seq<Action>, actions: seq<Action>, read: KvRead)
    requires Run(init).Some? && Run(actions).Some? && actions == init + [Lead(read)]
    ensures var i := |Run(init).value.processes|;
            i < |Run(actions).value.processes| && Recorded(actions, Run(actions).value.processes[i], i, read)
  {
    assert actions[..|init|] == init;
    NoEventsYet(init, |Run(init).value.processes|);
    assert L.Writes(Texts([])) == [];
  }

  lemma {:induction false} RecordedNext(init: seq<Action>, actions: seq<Action>, a: Action, i: nat, read: KvRead)
    requires Run(init).Some? && Run(actions).Some? && actions == init + [a]
    requires i < |Run(init).value.processes| && Recorded(init, Run(init).value.processes[i], i, read)
    ensures i < |Run(actions).value.processes| && Recorded(actions, Run(actions).value.processes[i], i, read)
  {
    assert actions[..|init|] == init;
    var s := Run(init).value;
    ActGrowsSaved(s, a);
    SavedNow(s, a, i);
    TextsJoin(s.processes[i].saved, DeliveryOf(s, a, i));
    JoinAfter(Opening(read), L.Writes(Texts(s.processes[i].saved)), EventOf(s, a, i));
  }

  /** The manager events of an incarnation: those of its Lead action, then one write for every
      value its channel delivered, which are the values it saved. */
  lemma {:induction false} EventsAreSaved(actions: seq<Action>, i: nat) returns (n: nat, read: KvRead)
    requires Run(actions).Some? && i < |Run(actions).value.processes|
    ensures LedAt(actions, n, i, read)
    ensures Recorded(actions, Run(actions).value.processes[i], i, read)
  {
    var init, a := actions[..|actions| - 1], actions[|actions| - 1];
    assert actions == init + [a];
    if i < |Run(init).value.processes| {
      n, read := EventsAreSaved(init, i);
      assert actions[..n] == init[..n];
      RecordedNext(init, actions, a, i, read);
    } else {
      n, read := |init|, a.read;
      RecordedFirst(init, actions, read);
    }
  }

  lemma TextsJoin(saved: seq<nat>, more: seq<nat>)
    ensures L.Writes(Texts(saved + more)) == L.Writes(Texts(saved)) + L.Writes(Texts(more))
  {
    assert Texts(saved + more) == Texts(saved) + Texts(more);
  }

  lemma JoinAfter(a: seq<L.Event>, b: seq<L.Event>, c: seq<L.Event>)
    ensures (a + b) + c == a + (b + c)
  {
  }

  // ---- and those of the manager's loop ----

  /** The channel delivers these cursors. */
  function Updates(saved: seq<Uint64>): seq<L.Select> {
    seq(|saved|, k requires 0 <= k < |saved| => L.Update(GoUint64(saved[k])))
  }

  lemma {:induction false} LeadingUpdates(saved: seq<Uint64>)
    ensures L.Leading(Updates(saved)) == L.Led(Texts(saved), false, None)
  {
    if saved != [] {
      LeadingUpdates(saved[1..]);
      assert Updates(saved)[1..] == Updates(saved[1..]);
      assert Texts(saved) == [PrintNat(saved[0])] + Texts(saved[1..]);
    }
  }

  lemma TermOfUpdates(read: KvRead, saved: seq<Uint64>)
    ensures L.Term(L.Attempt(true, true, read, Updates(saved))) == Opening(read) + L.Writes(Texts(saved))
  {
    LeadingUpdates(saved);
  }

  lemma {:induction false} DeliveredFits(actions: seq<Action>, i: nat)
    requires Run(actions).Some? && i < |Run(actions).value.processes|
    requires |Run(actions).value.log| < TWO64
    ensures forall k :: 0 <= k < |Delivered(actions, i)| ==> Delivered(actions, i)[k] < TWO64
  {
    var n, read := EventsAreSaved(actions, i);
    RunKeepsInvariants(actions);
    var s := Run(actions).value;
    var p := s.processes[i];
    assert Sound(s.log, p) && Safe(s, p.cursor);
    forall k | 0 <= k < |p.saved| ensures p.saved[k] < TWO64 {
      SavedBelowCursor(p, k);
    }
  }

  /** The actions of a run, from the Lead that created an incarnation on, are for its manager
      one term of `Leadership.Manager`: fed with the read of that Lead and with the channel
      values of the incarnation's Checkpoint actions, the manager's loop leaves exactly the
      events these actions are, and starts the watcher at the cursor the incarnation has. The
      read gave an error, an absent key, or a text some incarnation has written. Cursors are
      uint64 in the manager, hence the bound on the log. */
  lemma {:induction false} TermsAreManaged(actions: seq<Action>, i: nat)
      returns (n: nat, read: KvRead, delivered: seq<Uint64>)
    requires Run(actions).Some? && i < |Run(actions).value.processes|
    requires |Run(actions).value.log| < TWO64
    ensures LedAt(actions, n, i, read) && Readable(Run(actions).value.processes, read)
    ensures delivered == Delivered(actions, i) == Run(actions).value.processes[i].saved
    ensures Run(actions).value.processes[i].restored == RestoredCursor(read)
    ensures L.Term(L.Attempt(true, true, read, Updates(delivered))) == EventsOf(actions, i)
  {
    n, read := EventsAreSaved(actions, i);
    DeliveredFits(actions, i);
    ReadAtLead(actions, n, i, read);
    var values := Delivered(actions, i);
    delivered := seq(|values|, k requires 0 <= k < |values| => values[k]);
    assert delivered == values;
    TermOfUpdates(read, delivered);
  }

  lemma {:induction false} RunPrefix(actions: seq<Action>, n: nat)
    requires Run(actions).Some? && n <= |actions|
    ensures Run(actions[..n]).Some?
    ensures SavedGrows(Run(actions[..n]).value.processes, Run(actions).value.processes)
  {
    if n == |actions| {
      assert actions[..n] == actions;
    } else {
      var init := actions[..|actions| - 1];
      RunPrefix(init, n);
      assert init[..n] == actions[..n];
      ActGrowsSaved(Run(init).value, actions[|actions| - 1]);
      SavedGrowsTwice(Run(actions[..n]).value.processes, Run(init).value.processes, Run(actions).value.processes);
    }
  }

  lemma SavedGrowsTwice(ps: seq<Process>, qs: seq<Process>, rs: seq<Process>)
    requires SavedGrows(ps, qs) && SavedGrows(qs, rs)
    ensures SavedGrows(ps, rs)
  {
  }

  lemma {:induction false} ReadAtLead(actions: seq<Action>, n: nat, i: nat, read: KvRead)
    requires Run(actions).Some? && LedAt(actions, n, i, read)
    ensures Readable(Run(actions).value.processes, read)
  {
    RunPrefix(actions, n);
    RunPrefix(actions, n + 1);
    assert actions[..n + 1][..n] == actions[..n];
    TextsAreWritten(actions[..n]);
    ReadableGrows(Run(actions[..n]).value.processes, Run(actions).value.processes, read);
  }
}

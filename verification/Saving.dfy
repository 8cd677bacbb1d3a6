/** Progress of the checkpoint path: what the persist goroutine, its capacity-1 channel and the
    manager's writes achieve together. */
module Saving {
  import opened Checkpoint
  import opened Cluster
  import opened Watcher
  import opened Replication
  import opened EndToEnd

  // ---- the cursor can always be saved ----

  /** From s to t only the checkpoint path of process i moved: its watcher and its sink, and all
      other processes, are untouched. */
  ghost predicate OnlySaved(s: System, t: System, i: nat) {
    && t.log == s.log && |t.processes| == |s.processes| && i < |s.processes|
    && (forall j :: 0 <= j < |s.processes| && j != i ==> t.processes[j] == s.processes[j])
    && var p, q := s.processes[i], t.processes[i];
       q == p.(pending := q.pending, slot := q.slot, issued := q.issued, writing := q.writing, saved := q.saved)
  }

  /** The actions of process i's checkpoint path. */
  ghost predicate Saves(a: Action, i: nat) {
    match a
    case Local(who, step) => who == i && (step.SaveTick? || step.Send? || step.WriteReturns?)
    case Checkpoint(who) => who == i
    case Land(_) => true
    case _ => false
  }

  /** `longer` continues `actions` on the checkpoint path of process i alone. */
  ghost predicate SavingOnly(actions: seq<Action>, longer: seq<Action>, i: nat) {
    && actions <= longer
    && forall k :: |actions| <= k < |longer| ==> Saves(longer[k], i)
  }

  lemma SavingTwice(a: seq<Action>, b: seq<Action>, c: seq<Action>, i: nat)
    requires SavingOnly(a, b, i) && SavingOnly(b, c, i)
    ensures SavingOnly(a, c, i)
  {
    forall k | |a| <= k < |c| ensures Saves(c[k], i) {
      assert k < |b| ==> c[k] == b[k];
    }
  }

  lemma SavedTwice(s: System, t: System, u: System, i: nat)
    requires OnlySaved(s, t, i) && OnlySaved(t, u, i)
    ensures OnlySaved(s, u, i)
  {
  }

  lemma {:induction false} Save(actions: seq<Action>, s: System, i: nat, a: Action)
      returns (longer: seq<Action>, t: System)
    requires Run(actions) == Some(s) && i < |s.processes| && Saves(a, i) && CanAct(s, a)
    ensures Run(longer) == Some(t) && t == Act(s, a)
    ensures SavingOnly(actions, longer, i) && OnlySaved(s, t, i)
  {
    longer, t := actions + [a], Act(s, a);
    assert longer[..|actions|] == actions;
  }

  /** The write in progress returns, if there is one. */
  lemma {:induction false} WaitForWrite(actions: seq<Action>, s: System, i: nat)
      returns (longer: seq<Action>, t: System)
    requires Run(actions) == Some(s) && i < |s.processes| && s.processes[i].alive
    ensures Run(longer) == Some(t) && SavingOnly(actions, longer, i) && OnlySaved(s, t, i)
    ensures t.processes[i] == s.processes[i].(writing := false)
  {
    if s.processes[i].writing {
      longer, t := Save(actions, s, i, Local(i, WriteReturns));
    } else {
      longer, t := actions, s;
    }
  }

  /** The manager takes the channel value, if there is one, and its write returns. */
  lemma {:induction false} EmptySlot(actions: seq<Action>, s: System, i: nat) returns (longer: seq<Action>, t: System)
    requires Run(actions) == Some(s) && i < |s.processes| && s.processes[i].alive
    ensures Run(longer) == Some(t) && SavingOnly(actions, longer, i) && OnlySaved(s, t, i)
    ensures t.processes[i].slot.None? && !t.processes[i].writing && t.processes[i].pending == s.processes[i].pending
  {
    longer, t := WaitForWrite(actions, s, i);
    if t.processes[i].slot.Some? {
      var before, mid, u := longer, t, t;
      longer, u := Save(longer, t, i, Checkpoint(i));
      SavingTwice(actions, before, longer, i);
      SavedTwice(s, mid, u, i);
      before, mid := longer, u;
      longer, t := WaitForWrite(longer, u, i);
      SavingTwice(actions, before, longer, i);
      SavedTwice(s, mid, t, i);
    }
  }

  /** The pending send goes through, if there is one, and its value is taken. */
  lemma {:induction false} EmptyPath(actions: seq<Action>, s: System, i: nat) returns (longer: seq<Action>, t: System)
    requires Run(actions) == Some(s) && i < |s.processes| && s.processes[i].alive
    ensures Run(longer) == Some(t) && SavingOnly(actions, longer, i) && OnlySaved(s, t, i)
    ensures t.processes[i].slot.None? && !t.processes[i].writing && t.processes[i].pending.None?
  {
    longer, t := EmptySlot(actions, s, i);
    if t.processes[i].pending.Some? {
      var before, mid, u := longer, t, t;
      longer, u := Save(longer, t, i, Local(i, Send));
      SavingTwice(actions, before, longer, i);
      SavedTwice(s, mid, u, i);
      before, mid := longer, u;
      longer, t := EmptySlot(longer, u, i);
      SavingTwice(actions, before, longer, i);
      SavedTwice(s, mid, t, i);
    }
  }

  /** With the path empty, the cursor is read, sent, taken and written. */
  lemma {:induction false} SaveNow(actions: seq<Action>, s: System, i: nat) returns (longer: seq<Action>, t: System)
    requires Run(actions) == Some(s) && i < |s.processes| && s.processes[i].alive
    requires s.processes[i].slot.None? && !s.processes[i].writing && s.processes[i].pending.None?
    ensures Run(longer) == Some(t) && SavingOnly(actions, longer, i) && OnlySaved(s, t, i)
    ensures t.processes[i].issued == s.processes[i].cursor && PrintNat(s.processes[i].cursor) in t.landing
  {
    var a, u := Save(actions, s, i, Local(i, SaveTick));
    var b, v := Save(a, u, i, Local(i, Send));
    longer, t := Save(b, v, i, Checkpoint(i));
    SavingTwice(actions, a, b, i);
    SavingTwice(actions, b, longer, i);
    SavedTwice(s, u, v, i);
    SavedTwice(s, v, t, i);
  }

  /** From every reachable state a running process can get its present cursor into the key, by
      steps of its own checkpoint path alone: whatever is pending, in the channel or being
      written cannot block it for good. */
  lemma {:induction false} CanSave(actions: seq<Action>, i: nat) returns (longer: seq<Action>)
    requires Run(actions).Some? && i < |Run(actions).value.processes| && Run(actions).value.processes[i].alive
    ensures Run(longer).Some? && SavingOnly(actions, longer, i)
    ensures OnlySaved(Run(actions).value, Run(longer).value, i)
    ensures Run(longer).value.kv == Found(PrintNat(Run(actions).value.processes[i].cursor))
  {
    var s := Run(actions).value;
    var a, t := EmptyPath(actions, s, i);
    var b, u := SaveNow(a, t, i);
    var w;
    longer, w := Save(b, u, i, Land(PrintNat(s.processes[i].cursor)));
    SavingTwice(actions, a, b, i);
    SavingTwice(actions, b, longer, i);
    SavedTwice(s, t, u, i);
    SavedTwice(s, u, w, i);
  }

  // ---- two writes later ----

  /** How many of the actions from the n-th on are checkpoint writes of process i. */
  function Writes(actions: seq<Action>, n: nat, i: nat): nat {
    if |actions| <= n then 0 else
    Writes(actions[..|actions| - 1], n, i) + (if actions[|actions| - 1] == Checkpoint(i) then 1 else 0)
  }

  /** Where a value of at least c is after this many writes: still on its way, at the head of
      the way, written. */
  ghost predicate OnItsWay(p: Process, c: nat, writes: nat) {
    || p.issued >= c
    || (writes < 2 && p.slot.Some? && p.slot.value >= c)
    || (writes < 2 && p.pending.Some? && p.pending.value >= c && (writes == 0 || p.slot.None?))
  }

  lemma StepKeepsOnItsWay(log: Log, p: Process, step: Step, c: nat, writes: nat)
    requires CanStep(log, p, step) && OnItsWay(p, c, writes)
    ensures OnItsWay(DoStep(log, p, step), c, writes)
  {
  }

  lemma {:induction false} ActKeepsOnItsWay(s: System, a: Action, i: nat, c: nat, writes: nat)
    requires AllSound(s) && CanAct(s, a) && i < |s.processes| && OnItsWay(s.processes[i], c, writes)
    ensures i < |Act(s, a).processes|
    ensures OnItsWay(Act(s, a).processes[i], c, writes + if a == Checkpoint(i) then 1 else 0)
  {
    assert Sound(s.log, s.processes[i]);
    if a.Local? && a.who == i {
      StepKeepsOnItsWay(s.log, s.processes[i], a.step, c, writes);
    }
  }

  /** The n-th action is a tick of process i's persist goroutine, at cursor c. */
  ghost predicate TickedAt(actions: seq<Action>, n: nat, i: nat, c: nat) {
    && n < |actions| && actions[n] == Local(i, SaveTick)
    && Run(actions[..n]).Some? && i < |Run(actions[..n]).value.processes|
    && Run(actions[..n]).value.processes[i].cursor == c
  }

  lemma {:induction false} TickIsOnItsWay(actions: seq<Action>, n: nat, i: nat, c: nat)
    requires Run(actions).Some? && TickedAt(actions, n, i, c)
    ensures i < |Run(actions).value.processes|
    ensures OnItsWay(Run(actions).value.processes[i], c, Writes(actions, n + 1, i))
  {
    var init, a := actions[..|actions| - 1], actions[|actions| - 1];
    if n < |init| {
      assert init[..n] == actions[..n];
      TickIsOnItsWay(init, n, i, c);
      RunKeepsInvariants(init);
      ActKeepsOnItsWay(Run(init).value, a, i, c, Writes(init, n + 1, i));
    }
  }

  /** Once two checkpoint writes have followed a tick, the last value written is at least the
      cursor at that tick, even when the channel was full and the send had to wait. */
  lemma {:induction false} TwoWritesLater(actions: seq<Action>, n: nat, i: nat, c: nat)
    requires Run(actions).Some? && TickedAt(actions, n, i, c) && Writes(actions, n + 1, i) >= 2
    ensures i < |Run(actions).value.processes| && c <= Run(actions).value.processes[i].issued
  {
    TickIsOnItsWay(actions, n, i, c);
  }

  // ---- every tick is accounted for ----

  function Held(o: Option<nat>): seq<nat> {
    match o
    case None => []
    case Some(v) => [v]
  }

  /** The cursor an action reads for process i, if it is a tick of its persist goroutine. */
  ghost function TickOf(s: System, a: Action, i: nat): seq<nat> {
    if i < |s.processes| && a == Local(i, SaveTick) then [s.processes[i].cursor] else []
  }

  /** All cursors read by process i's ticks, in order. */
  ghost function Ticks(actions: seq<Action>, i: nat): seq<nat> {
    if actions == [] then [] else
    var init := actions[..|actions| - 1];
    Ticks(init, i) + (if Run(init).Some? then TickOf(Run(init).value, actions[|actions| - 1], i) else [])
  }

  /** What the checkpoint path has written and still holds, oldest first. */
  ghost function OnPath(p: Process): seq<nat> {
    p.saved + Held(p.slot) + Held(p.pending)
  }

  lemma StepAccounts(log: Log, p: Process, step: Step)
    requires CanStep(log, p, step)
    ensures OnPath(DoStep(log, p, step)) == OnPath(p) + if step.SaveTick? then [p.cursor] else []
  {
  }

  lemma ActAccounts(s: System, a: Action, i: nat)
    requires CanAct(s, a) && i < |s.processes|
    ensures i < |Act(s, a).processes|
    ensures OnPath(Act(s, a).processes[i]) == OnPath(s.processes[i]) + TickOf(s, a, i)
  {
    if a.Local? && a.who == i { StepAccounts(s.log, s.processes[i], a.step); }
  }

  lemma {:induction false} NoTicksYet(actions: seq<Action>, i: nat)
    requires Run(actions).Some? && |Run(actions).value.processes| <= i
    ensures Ticks(actions, i) == []
  {
    if actions != [] { NoTicksYet(actions[..|actions| - 1], i); }
  }

  /** The cursors read by the ticks of an incarnation are exactly those written, then the one in
      the channel, then the one waiting to be sent: none is lost, doubled or overtaken. */
  lemma {:induction false} TicksAreSaved(actions: seq<Action>, i: nat)
    requires Run(actions).Some? && i < |Run(actions).value.processes|
    ensures OnPath(Run(actions).value.processes[i]) == Ticks(actions, i)
  {
    var init, a := actions[..|actions| - 1], actions[|actions| - 1];
    if i < |Run(init).value.processes| {
      TicksAreSaved(init, i);
      ActAccounts(Run(init).value, a, i);
    } else {
      NoTicksYet(init, i);
    }
  }

  // ---- one write at a time ----

  /** How often the action occurs. */
  function Times(actions: seq<Action>, a: Action): nat {
    if actions == [] then 0 else
    Times(actions[..|actions| - 1], a) + (if actions[|actions| - 1] == a then 1 else 0)
  }

  lemma {:induction false} NoActionsYet(actions: seq<Action>, i: nat, a: Action)
    requires Run(actions).Some? && |Run(actions).value.processes| <= i
    requires a == Checkpoint(i) || (a.Local? && a.who == i)
    ensures Times(actions, a) == 0
  {
    if actions != [] { NoActionsYet(actions[..|actions| - 1], i, a); }
  }

  lemma WritingStep(s: System, a: Action, i: nat)
    requires CanAct(s, a) && i < |s.processes|
    ensures i < |Act(s, a).processes|
    ensures Act(s, a).processes[i].writing ==
            if a == Checkpoint(i) then true
            else if a == Local(i, WriteReturns) then false else s.processes[i].writing
    ensures a == Checkpoint(i) ==> !s.processes[i].writing
    ensures a == Local(i, WriteReturns) ==> s.processes[i].writing
  {
  }

  /** A manager never has two writes under way: each write returns before the next begins. */
  lemma {:induction false} OneWriteAtATime(actions: seq<Action>, i: nat)
    requires Run(actions).Some? && i < |Run(actions).value.processes|
    ensures Times(actions, Checkpoint(i)) ==
            Times(actions, Local(i, WriteReturns)) + if Run(actions).value.processes[i].writing then 1 else 0
  {
    var init, a := actions[..|actions| - 1], actions[|actions| - 1];
    if i < |Run(init).value.processes| {
      OneWriteAtATime(init, i);
      WritingStep(Run(init).value, a, i);
    } else {
      NoActionsYet(init, i, Checkpoint(i));
      NoActionsYet(init, i, Local(i, WriteReturns));
    }
  }

  // ---- what becomes of a write ----

  /** The text an action sends on its way to the key. */
  ghost function Issues(s: System, a: Action): multiset<string> {
    if a.Checkpoint? && a.who < |s.processes| && s.processes[a.who].slot.Some?
    then multiset{PrintNat(s.processes[a.who].slot.value)} else multiset{}
  }

  ghost function Issued(actions: seq<Action>): multiset<string> {
    if actions == [] then multiset{} else
    var init := actions[..|actions| - 1];
    Issued(init) + (if Run(init).Some? then Issues(Run(init).value, actions[|actions| - 1]) else multiset{})
  }

  lemma ActCounts(s: System, a: Action, text: string)
    requires CanAct(s, a)
    ensures Act(s, a).landing[text] + (if a == Land(text) || a == Drop(text) then 1 else 0) ==
            s.landing[text] + Issues(s, a)[text]
  {
  }

  /** Every write is on its way, has landed, or was lost, exactly one of these. */
  lemma {:induction false} WritesAccount(actions: seq<Action>, text: string)
    requires Run(actions).Some?
    ensures Issued(actions)[text] ==
            Run(actions).value.landing[text] + Times(actions, Land(text)) + Times(actions, Drop(text))
  {
    if actions != [] {
      var init, a := actions[..|actions| - 1], actions[|actions| - 1];
      WritesAccount(init, text);
      ActCounts(Run(init).value, a, text);
    }
  }

  /** The key holds the text that landed last, and is absent before any has. */
  lemma {:induction false} KeyIsLastLanding(actions: seq<Action>, n: nat)
    requires Run(actions).Some? && n <= |actions| && (n > 0 ==> actions[n - 1].Land?)
    requires forall k :: n <= k < |actions| ==> !actions[k].Land?
    ensures Run(actions).value.kv == if n == 0 then Missing else Found(actions[n - 1].text)
  {
    if n < |actions| {
      KeyIsLastLanding(actions[..|actions| - 1], n);
    }
  }

  /** Nothing about a write is certain while it is on its way: from every reachable state all of
      them can be lost, leaving the key as it is. */
  lemma {:induction false} AllCanBeLost(actions: seq<Action>, s: System) returns (longer: seq<Action>)
    requires Run(actions) == Some(s)
    ensures actions <= longer && Run(longer) == Some(s.(landing := multiset{}))
    decreases |s.landing|
  {
    if s.landing == multiset{} {
      longer := actions;
    } else {
      var text :| text in s.landing;
      var next, t := Extend(actions, s, Drop(text));
      longer := actions + [Drop(text)];
      assert longer[..|actions|] == actions;
      longer := AllCanBeLost(longer, t);
    }
  }

  /** And a new leader may restore any text ever written, however often the key has changed
      since, and start the watcher there. */
  lemma {:induction false} CanRestoreAnyWrite(actions: seq<Action>, text: string)
    requires Run(actions).Some? && Written(Run(actions).value.processes, text)
    ensures Run(actions + [Lead(Found(text))]).Some?
    ensures var ps := Run(actions + [Lead(Found(text))]).value.processes;
            |ps| == |Run(actions).value.processes| + 1 && ps[|ps| - 1] == Fresh(RestoredCursor(Found(text)))
  {
    assert (actions + [Lead(Found(text))])[..|actions|] == actions;
  }

  // ---- crashes are final ----

  lemma {:induction false} ActKeepsDead(s: System, a: Action, i: nat)
    requires CanAct(s, a) && i < |s.processes| && !s.processes[i].alive
    ensures i < |Act(s, a).processes| && Act(s, a).processes[i] == s.processes[i]
  {
  }

  /** A crash ends an incarnation, and nothing about it changes any more; its writes under way
      may still land. */
  lemma {:induction false} CrashIsFinal(actions: seq<Action>, n: nat, i: nat)
    requires Run(actions).Some? && n < |actions| && actions[n] == Local(i, Crash)
    ensures Run(actions[..n]).Some? && i < |Run(actions[..n]).value.processes|
    ensures i < |Run(actions).value.processes|
    ensures Run(actions).value.processes[i] == Run(actions[..n]).value.processes[i].(alive := false)
  {
    var init, a := actions[..|actions| - 1], actions[|actions| - 1];
    if n < |init| {
      assert init[..n] == actions[..n];
      CrashIsFinal(init, n, i);
      ActKeepsDead(Run(init).value, a, i);
    }
  }
}

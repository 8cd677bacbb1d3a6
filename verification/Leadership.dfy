/** The manager's leadership loop: take the lock, restore, run the watcher, write checkpoints,
    stop and unlock. `Manager` is the loop over scripts of what its selects deliver; every
    effect is recorded in `trace`, and the lemmas say what every trace looks like. */
module Leadership {
  import opened Checkpoint
  import opened Watcher

  datatype Error = BadLockOptions | LockFailed | UnknownRestoreType | UnknownUpdateType | LockLost

  datatype Event =
    | Locked
    | Restored(v: GoValue)
    | Started
    | Wrote(text: string)
    | Stopped
    | Unlocked

  /** What one turn of the inner select delivers. */
  datatype Select =
    | Update(v: GoValue)
    | StopClosed
    | LockError(open: bool)
    | VoluntaryRelease

  /** The surroundings of one attempt to lead: do the lock calls succeed, what does the KV
      read return, and what do the selects deliver. */
  datatype Attempt = Attempt(optionsOk: bool, lockOk: bool, read: KvRead, selects: seq<Select>)

  /** One turn of the outer select: stopCh is closed, or the timer fires. */
  datatype Turn = Stop | Timer(attempt: Attempt)

  // ---- what an attempt does ----

  /** `finished` tells whether the leader loop has returned, `error` with what. */
  datatype Led = Led(texts: seq<string>, finished: bool, error: Option<Error>)

  function Leading(selects: seq<Select>): Led {
    if selects == [] then Led([], false, None) else
    match selects[0]
    case Update(v) =>
      (match UpdateText(v)
       case None => Led([], true, Some(UnknownUpdateType))
       case Some(text) => var r := Leading(selects[1..]); r.(texts := [text] + r.texts))
    case StopClosed => Led([], true, None)
    case LockError(open) => if open then Leading(selects[1..]) else Led([], true, Some(LockLost))
    case VoluntaryRelease => Led([], true, None)
  }

  function Writes(texts: seq<string>): seq<Event> {
    seq(|texts|, k requires 0 <= k < |texts| => Wrote(texts[k]))
  }

  /** The events of one attempt. */
  function Term(a: Attempt): seq<Event> {
    if !a.optionsOk || !a.lockOk then [] else
    var led := Leading(a.selects);
    [Locked, Restored(RestoredValue(a.read)), Started] + Writes(led.texts) +
    (if led.finished then [Stopped, Unlocked] else [])
  }

  /** Selects that end a term: closing down, losing the lock, releasing it, or an update of
      an unknown type. */
  predicate EndsTerm(x: Select) {
    match x
    case Update(v) => v == GoOther
    case StopClosed => true
    case LockError(open) => !open
    case VoluntaryRelease => true
  }

  /** The updates among the selects, in order. */
  function UpdatesIn(selects: seq<Select>): seq<GoValue> {
    if selects == [] then [] else
    var last := selects[|selects| - 1];
    UpdatesIn(selects[..|selects| - 1]) + (if last.Update? then [last.v] else [])
  }

  /** One text per update, each the one written for it. */
  ghost predicate TextsOf(texts: seq<string>, updates: seq<GoValue>) {
    && |texts| == |updates|
    && forall k :: 0 <= k < |texts| ==> UpdateText(updates[k]) == Some(texts[k])
  }

  lemma {:induction false} UpdatesFirst(x: Select, selects: seq<Select>)
    ensures UpdatesIn([x] + selects) == (if x.Update? then [x.v] else []) + UpdatesIn(selects)
  {
    var all := [x] + selects;
    if selects == [] {
      assert all[..0] == [];
    } else {
      assert all[..|all| - 1] == [x] + selects[..|selects| - 1];
      UpdatesFirst(x, selects[..|selects| - 1]);
    }
  }

  lemma TextsJoin(s: seq<string>, t: seq<string>, us: seq<GoValue>, vs: seq<GoValue>)
    requires TextsOf(s, us) && TextsOf(t, vs)
    ensures TextsOf(s + t, us + vs)
  {
  }

  /** What a select that does not end the term adds. */
  function TextOf(x: Select): seq<string>
    requires !EndsTerm(x)
  {
    if x.Update? then [UpdateText(x.v).value] else []
  }

  lemma LeadingPast(x: Select, rest: seq<Select>)
    requires !EndsTerm(x)
    ensures var led := Leading(rest); Leading([x] + rest) == led.(texts := TextOf(x) + led.texts)
  {
    assert ([x] + rest)[1..] == rest;
  }

  lemma PastTexts(x: Select, rest: seq<Select>, texts: seq<string>)
    requires !EndsTerm(x) && TextsOf(texts, UpdatesIn(rest))
    ensures TextsOf(TextOf(x) + texts, UpdatesIn([x] + rest))
  {
    UpdatesFirst(x, rest);
    TextsJoin(TextOf(x), texts, if x.Update? then [x.v] else [], UpdatesIn(rest));
  }

  /** As long as nothing ends the term, it goes on and writes every update, in order. */
  lemma {:induction false} TermGoesOn(selects: seq<Select>)
    requires forall k :: 0 <= k < |selects| ==> !EndsTerm(selects[k])
    ensures !Leading(selects).finished && Leading(selects).error == None
    ensures TextsOf(Leading(selects).texts, UpdatesIn(selects))
  {
    if selects != [] {
      var x, rest := selects[0], selects[1..];
      assert selects == [x] + rest;
      TermGoesOn(rest);
      LeadingPast(x, rest);
      PastTexts(x, rest, Leading(rest).texts);
    }
  }

  /** How a term ends that this select ends: the error is a lost lock exactly for a closed
      error channel. */
  ghost predicate EndedBy(led: Led, x: Select) {
    && led.finished
    && (led.error == Some(LockLost) <==> x == LockError(false))
    && (led.error == Some(UnknownUpdateType) <==> x == Update(GoOther))
    && (led.error == None <==> x.StopClosed? || x.VoluntaryRelease?)
  }

  /** What the first select that ends a term makes of it: every update before it was written,
      in order, and nothing else. */
  lemma {:induction false} TermEnds(selects: seq<Select>, k: nat)
    requires k < |selects| && EndsTerm(selects[k])
    requires forall j :: 0 <= j < k ==> !EndsTerm(selects[j])
    ensures EndedBy(Leading(selects), selects[k])
    ensures TextsOf(Leading(selects).texts, UpdatesIn(selects[..k]))
  {
    if k == 0 {
      assert selects[..0] == [];
    } else {
      var x, rest := selects[0], selects[1..];
      assert selects == [x] + rest && selects[..k] == [x] + rest[..k - 1];
      TermEnds(rest, k - 1);
      LeadingPast(x, rest);
      PastTexts(x, rest[..k - 1], Leading(rest).texts);
    }
  }

  // ---- the discipline ----

  /** Which event may follow which. */
  predicate Follows(x: Event, y: Event) {
    match x
    case Locked => y.Restored?
    case Restored(_) => y.Started?
    case Started => y.Wrote? || y.Stopped?
    case Wrote(_) => y.Wrote? || y.Stopped?
    case Stopped => y.Unlocked?
    case Unlocked => y.Locked?
  }

  ghost predicate Disciplined(trace: seq<Event>) {
    && (trace != [] ==> trace[0] == Locked)
    && forall i :: 0 <= i < |trace| - 1 ==> Follows(trace[i], trace[i + 1])
  }

  predicate AtRest(trace: seq<Event>) {
    trace == [] || trace[|trace| - 1] == Unlocked
  }

  lemma TermIsDisciplined(a: Attempt)
    ensures Disciplined(Term(a))
    ensures AtRest(Term(a)) <==> !a.optionsOk || !a.lockOk || Leading(a.selects).finished
  {
  }

  lemma DisciplinedJoin(s: seq<Event>, t: seq<Event>)
    requires Disciplined(s) && AtRest(s) && Disciplined(t)
    ensures Disciplined(s + t) && (AtRest(t) ==> AtRest(s + t))
  {
  }

  /** A checkpoint is written only by a leader that has restored and started and has not
      stopped: going back from the write there are only writes up to the start. */
  lemma {:induction false} WritesAreWithinTerm(trace: seq<Event>, i: nat) returns (l: nat)
    requires Disciplined(trace) && i < |trace| && trace[i].Wrote?
    ensures l + 2 < i && trace[l] == Locked && trace[l + 1].Restored? && trace[l + 2] == Started
    ensures forall k :: l + 2 < k <= i ==> trace[k].Wrote?
  {
    assert i > 0 && Follows(trace[i - 1], trace[i]);
    if trace[i - 1].Wrote? {
      l := WritesAreWithinTerm(trace, i - 1);
    } else {
      l := i - 3;
      assert Follows(trace[i - 2], trace[i - 1]);
      assert Follows(trace[i - 3], trace[i - 2]);
    }
  }

  /** Nothing is saved on quit: between a Stop and the next time the lock is taken there is no
      write, so what the watcher sends while stopping never reaches the KV. */
  lemma NothingIsWrittenAfterStop(trace: seq<Event>, stop: nat, i: nat) returns (l: nat)
    requires Disciplined(trace) && stop < i < |trace|
    requires trace[stop] == Stopped && trace[i].Wrote?
    ensures stop < l < i && trace[l] == Locked
  {
    l := WritesAreWithinTerm(trace, i);
    assert stop != l && stop != l + 1 && stop != l + 2;
  }

  function CountOf(trace: seq<Event>, e: Event): nat {
    if trace == [] then 0 else
    CountOf(trace[..|trace| - 1], e) + (if trace[|trace| - 1] == e then 1 else 0)
  }

  /** Lock acquisitions, Stops and Unlocks balance at every moment: each acquisition gets
      exactly one Stop and then exactly one Unlock before the next one. */
  lemma {:induction false} StopsAndUnlocksBalance(trace: seq<Event>)
    requires Disciplined(trace)
    ensures var locks, stops, unlocks := CountOf(trace, Locked), CountOf(trace, Stopped), CountOf(trace, Unlocked);
            && unlocks <= stops <= locks <= unlocks + 1
            && (AtRest(trace) <==> locks == unlocks)
            && (stops == locks <==> AtRest(trace) || trace[|trace| - 1] == Stopped)
  {
    if trace != [] {
      var init := trace[..|trace| - 1];
      StopsAndUnlocksBalance(init);
      if init != [] {
        assert Follows(trace[|trace| - 2], trace[|trace| - 1]);
      }
    }
  }

  // ---- what the outer loop does ----

  /** The error of an attempt, if it fails. */
  function AttemptError(a: Attempt): Option<Error> {
    if !a.optionsOk then Some(BadLockOptions)
    else if !a.lockOk then Some(LockFailed)
    else Leading(a.selects).error
  }

  /** The attempt is over: it never led, or its term has ended. */
  predicate Finished(a: Attempt) {
    !a.optionsOk || !a.lockOk || Leading(a.selects).finished
  }

  /** The turn is an attempt that ended without an error, after which the loop goes on. */
  predicate Passed(t: Turn) {
    t.Timer? && Finished(t.attempt) && AttemptError(t.attempt) == None
  }

  /** The events of all attempts, in order. */
  function Terms(turns: seq<Turn>): seq<Event> {
    if turns == [] then [] else
    var last := turns[|turns| - 1];
    Terms(turns[..|turns| - 1]) + (if last.Timer? then Term(last.attempt) else [])
  }

  /** How the loop ends, having made n attempts: all but the last passed; it leads when the
      last has not finished, returns its error when it failed, and otherwise has met a stop
      or the end of the script. */
  ghost predicate Ended(turns: seq<Turn>, n: nat, leading: bool, err: Option<Error>) {
    && n <= |turns|
    && (forall k :: 0 <= k < n - 1 ==> Passed(turns[k]))
    && (n > 0 ==> turns[n - 1].Timer?)
    && (leading <==> n > 0 && !Finished(turns[n - 1].attempt))
    && err == (if n > 0 then AttemptError(turns[n - 1].attempt) else None)
    && (!leading && err == None && n < |turns| ==> turns[n] == Stop)
  }

  lemma UnfinishedHasNoError(selects: seq<Select>)
    ensures Leading(selects).error.Some? ==> Leading(selects).finished
  {
  }

  /** The first turn that does not pass decides everything, so the contract of the loop leaves
      only one outcome. */
  lemma EndedOnce(turns: seq<Turn>, n: nat, n': nat, leading: bool, leading': bool,
                  err: Option<Error>, err': Option<Error>)
    requires Ended(turns, n, leading, err) && Ended(turns, n', leading', err')
    ensures n == n' && leading == leading' && err == err'
  {
    EndedNotLater(turns, n, n', leading, leading', err, err');
    EndedNotLater(turns, n', n, leading', leading, err', err);
  }

  lemma EndedNotLater(turns: seq<Turn>, n: nat, n': nat, leading: bool, leading': bool,
                      err: Option<Error>, err': Option<Error>)
    requires Ended(turns, n, leading, err) && Ended(turns, n', leading', err')
    ensures n' <= n
  {
  }

  /** What n attempts leave in the trace: their terms, in order; it is disciplined, and at rest
      with the lock released unless the last one is still leading. */
  ghost predicate Left(turns: seq<Turn>, n: nat, start: seq<Event>, trace: seq<Event>, leading: bool) {
    && n <= |turns| && trace == start + Terms(turns[..n])
    && Disciplined(trace) && (!leading ==> AtRest(trace))
  }

  /** Before turn n: every turn so far was an attempt that passed, and left its term. */
  ghost predicate SoFar(turns: seq<Turn>, n: nat, start: seq<Event>, trace: seq<Event>) {
    n <= |turns| && (forall k :: 0 <= k < n ==> Passed(turns[k])) && Left(turns, n, start, trace, false)
  }

  lemma TermsNext(turns: seq<Turn>, n: nat, start: seq<Event>, trace: seq<Event>)
    requires n < |turns| && turns[n].Timer? && trace == start + Terms(turns[..n])
    ensures trace + Term(turns[n].attempt) == start + Terms(turns[..n + 1])
  {
    assert turns[..n + 1][..n] == turns[..n];
  }

  lemma DisciplineNext(trace: seq<Event>, a: Attempt)
    requires Disciplined(trace) && AtRest(trace)
    ensures Disciplined(trace + Term(a)) && (Finished(a) ==> AtRest(trace + Term(a)))
  {
    TermIsDisciplined(a);
    DisciplinedJoin(trace, Term(a));
  }

  /** One more attempt: either it passed and the loop goes on, or the loop has ended. */
  lemma AttemptMade(turns: seq<Turn>, n: nat, start: seq<Event>, trace: seq<Event>)
    requires SoFar(turns, n, start, trace) && n < |turns| && turns[n].Timer?
    ensures var a := turns[n].attempt;
            && Left(turns, n + 1, start, trace + Term(a), !Finished(a))
            && (Passed(turns[n]) ==> SoFar(turns, n + 1, start, trace + Term(a)))
            && (!Passed(turns[n]) ==> Ended(turns, n + 1, !Finished(a), AttemptError(a)))
            && (!Finished(a) ==> AttemptError(a) == None)
  {
    TermsNext(turns, n, start, trace);
    DisciplineNext(trace, turns[n].attempt);
    UnfinishedHasNoError(turns[n].attempt.selects);
  }

  lemma NoMoreAttempts(turns: seq<Turn>, n: nat, start: seq<Event>, trace: seq<Event>)
    requires SoFar(turns, n, start, trace) && (n < |turns| ==> turns[n] == Stop)
    ensures Ended(turns, n, false, None) && Left(turns, n, start, trace, false)
  {
  }

  lemma NoAttempts(turns: seq<Turn>, start: seq<Event>)
    requires Disciplined(start) && AtRest(start)
    ensures SoFar(turns, 0, start, start)
  {
  }

  // ---- the loops ----

  /** After n selects the term goes on, and these texts have been written. */
  ghost predicate GoingOn(selects: seq<Select>, n: nat, texts: seq<string>) {
    n <= |selects| && Leading(selects) == var rest := Leading(selects[n..]); rest.(texts := texts + rest.texts)
  }

  lemma GoesOn(selects: seq<Select>, n: nat, texts: seq<string>)
    requires GoingOn(selects, n, texts) && n < |selects| && !EndsTerm(selects[n])
    ensures GoingOn(selects, n + 1, texts + TextOf(selects[n]))
  {
    var x, rest := selects[n], selects[n + 1..];
    assert selects[n..] == [x] + rest;
    LeadingPast(x, rest);
    assert texts + (TextOf(x) + Leading(rest).texts) == (texts + TextOf(x)) + Leading(rest).texts;
  }

  lemma GoesNoFurther(selects: seq<Select>, n: nat, texts: seq<string>)
    requires GoingOn(selects, n, texts)
    requires n < |selects| ==> EndsTerm(selects[n])
    ensures Leading(selects).texts == texts && (Leading(selects).finished <==> n < |selects|)
    ensures n < |selects| ==> EndedBy(Leading(selects), selects[n])
    ensures n == |selects| ==> Leading(selects).error == None
  {
    if n < |selects| {
      assert selects[n..][0] == selects[n];
    }
  }

  lemma WritesNext(texts: seq<string>, text: string)
    ensures Writes(texts + [text]) == Writes(texts) + [Wrote(text)]
  {
  }

  class Manager {
    const runner: FirehoseBase
    var trace: seq<Event>

    constructor (runner: FirehoseBase)
      ensures this.runner == runner && trace == []
    {
      this.runner := runner;
      trace := [];
    }

    method RestoreLastChangeTime(read: KvRead) returns (v: GoValue)
      ensures v == RestoredValue(read)
      ensures CursorFrom(v).Some?
    {
      if read == ReadError {
        return GoInt(0);
      }
      if read.Found? {
        var parsed := ParseInt(read.text);
        if parsed == None {
          return GoInt(0);
        }
        return GoInt64(parsed.value);
      }
      return GoInt(0);
    }

    /** The deferred release. */
    method Release()
      modifies this
      ensures trace == old(trace) + [Stopped, Unlocked]
    {
      trace := trace + [Stopped];
      trace := trace + [Unlocked];
    }

    /** `finished` is false when the script ended while still leading. The exit before the
        deferred release is never taken, and the exit on an unknown update type only when
        such an update arrives. */
    method AcquireConsulLeadership(a: Attempt) returns (finished: bool, err: Option<Error>)
      modifies this, runner
      ensures trace == old(trace) + Term(a)
      ensures finished <==> !a.optionsOk || !a.lockOk || Leading(a.selects).finished
      ensures a.optionsOk && a.lockOk ==>
                err == Leading(a.selects).error && runner.lastChangeIndex == RestoredCursor(a.read)
      ensures err == AttemptError(a)
      ensures err != Some(UnknownRestoreType)
      ensures err == Some(UnknownUpdateType) ==> Update(GoOther) in a.selects
    {
      if !a.optionsOk {
        return true, Some(BadLockOptions);
      }
      if !a.lockOk {
        return true, Some(LockFailed);
      }
      ghost var before := trace;
      trace := trace + [Locked];
      var value := RestoreLastChangeTime(a.read);
      var ok := runner.SetRestoreValue(value);
      trace := trace + [Restored(value)];
      if !ok {
        return true, Some(UnknownRestoreType);
      }
      trace := trace + [Started];
      finished, err := Lead(a.selects);
    }

    method Lead(selects: seq<Select>) returns (finished: bool, err: Option<Error>)
      modifies this
      ensures var led := Leading(selects);
              && trace == old(trace) + (Writes(led.texts) + (if led.finished then [Stopped, Unlocked] else []))
              && finished == led.finished && err == led.error
      ensures err != Some(UnknownRestoreType)
      ensures err == Some(UnknownUpdateType) ==> Update(GoOther) in selects
    {
      ghost var texts: seq<string> := [];
      for n := 0 to |selects|
        invariant trace == old(trace) + Writes(texts)
        invariant GoingOn(selects, n, texts)
      {
        if EndsTerm(selects[n]) {
          GoesNoFurther(selects, n, texts);
        } else {
          GoesOn(selects, n, texts);
        }
        match selects[n]
        case Update(v) =>
          var text := UpdateText(v);
          if text == None {
            Release();
            return true, Some(UnknownUpdateType);
          }
          trace := trace + [Wrote(text.value)];
          WritesNext(texts, text.value);
          texts := texts + [text.value];
        case StopClosed =>
          Release();
          return true, None;
        case LockError(open) =>
          if !open {
            Release();
            return true, Some(LockLost);
          }
        case VoluntaryRelease =>
          Release();
          return true, None;
      }
      GoesNoFurther(selects, |selects|, texts);
      return false, None;
    }

    /** Over any script: the attempts made are those of the first n turns, an attempt that
        fails ends the loop with its error, and the trace stays disciplined, with the lock
        released whenever the loop is not leading. */
    method ContinuouslyAcquireConsulLeadership(turns: seq<Turn>)
      returns (leading: bool, err: Option<Error>, n: nat)
      requires Disciplined(trace) && AtRest(trace)
      modifies this, runner
      ensures Ended(turns, n, leading, err)
      ensures Left(turns, n, old(trace), trace, leading)
      ensures err != Some(UnknownRestoreType)
    {
      n := 0;
      NoAttempts(turns, trace);
      while n < |turns|
        invariant SoFar(turns, n, old(trace), trace)
      {
        match turns[n]
        case Stop =>
          NoMoreAttempts(turns, n, old(trace), trace);
          return false, None, n;
        case Timer(a) =>
          AttemptMade(turns, n, old(trace), trace);
          var finished;
          finished, err := AcquireConsulLeadership(a);
          n := n + 1;
          if !finished {
            return true, None, n;
          }
          if err.Some? {
            return false, err, n;
          }
      }
      NoMoreAttempts(turns, n, old(trace), trace);
      return false, None, n;
    }
  }
}

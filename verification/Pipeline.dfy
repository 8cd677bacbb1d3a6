/** The batching sink: a producer feeds a bounded queue, the batcher groups messages into
    batches of ten (or whatever a quiet tick finds), a bounded queue of batches feeds the
    writer. The three run concurrently; every interleaving is a sequence of `Act`s. SQS and
    EventBridge share the machine: only SQS retries a too-long batch item by item. */
module Pipeline {
  import opened Checkpoint

  const PUT_CAPACITY: nat := 1000
  const BATCH_CAPACITY: nat := 100
  const BATCH_SIZE: nat := 10

  /** What the remote service answered to one request. */
  datatype Outcome = Accepted | TooLong | OtherError

  datatype Entry<M> = Entry(id: nat, body: M)

  datatype Call<M> = Call(entries: seq<Entry<M>>, outcome: Outcome)

  /** Where the writer is: at its select, waiting for the batch request, or waiting for the
      retry of entry `next`. */
  datatype Writer<M> =
    | Idle
    | Calling(entries: seq<Entry<M>>)
    | Retrying(entries: seq<Entry<M>>, next: nat)

  /** `outgoing` is the batch the batcher is blocked sending, if any. `puts`, `taken`,
      `attempted` and `calls` record history: all Puts accepted, the batches the writer took,
      the messages whose last request has returned, and every request with its answer. */
  datatype Pipe<M> = Pipe(
    puts: seq<M>,
    putCh: seq<M>,
    buffer: seq<M>,
    outgoing: seq<seq<M>>,
    batchCh: seq<seq<M>>,
    nextId: nat,
    writer: Writer<M>,
    taken: seq<seq<M>>,
    attempted: seq<M>,
    calls: seq<Call<M>>)

  datatype Act<M> =
    | Put(m: M)
    | Receive
    | Tick
    | SendBatch
    | Take
    | Return(outcome: Outcome)

  // ---- the batcher's turn ----

  /** What the batcher's select delivers: a message, or a tick with the queue length it saw. */
  datatype Input<M> = Data(m: M) | Ticked(queued: nat)

  datatype Batched<M> = Batched(buffer: seq<M>, out: seq<seq<M>>)

  /** One turn of the batcher: the new buffer and the batches (none or one) it sends. */
  function BatchTurn<M>(buffer: seq<M>, input: Input<M>): Batched<M> {
    match input
    case Data(m) =>
      var filled := buffer + [m];
      if |filled| == BATCH_SIZE then Batched([], [filled]) else Batched(filled, [])
    case Ticked(queued) =>
      if queued > 0 || buffer == [] then Batched(buffer, []) else Batched([], [buffer])
  }

  /** All turns of the batcher over a sequence of inputs. */
  function BatchLoop<M>(inputs: seq<Input<M>>): Batched<M> {
    if inputs == [] then Batched([], []) else
    var b := BatchLoop(inputs[..|inputs| - 1]);
    var t := BatchTurn(b.buffer, inputs[|inputs| - 1]);
    Batched(t.buffer, b.out + t.out)
  }

  // ---- numbering and flattening ----

  /** The entries the writer builds for a batch when its counter stands at `id`. */
  function Number<M>(id: nat, batch: seq<M>): (es: seq<Entry<M>>) {
    seq(|batch|, k requires 0 <= k < |batch| => Entry(id + k, batch[k]))
  }

  function Bodies<M>(es: seq<Entry<M>>): seq<M> {
    seq(|es|, k requires 0 <= k < |es| => es[k].body)
  }

  function Flatten<M>(bs: seq<seq<M>>): seq<M> {
    if bs == [] then [] else bs[0] + Flatten(bs[1..])
  }

  lemma {:induction false} FlattenJoin<M>(a: seq<seq<M>>, b: seq<seq<M>>)
    ensures Flatten(a + b) == Flatten(a) + Flatten(b)
  {
    if a == [] {
      assert a + b == b;
    } else {
      assert (a + b)[1..] == a[1..] + b;
      FlattenJoin(a[1..], b);
    }
  }

  lemma FlattenOne<M>(b: seq<M>)
    ensures Flatten([b]) == b
  {
    assert [b][1..] == [];
  }

  // ---- the machine ----

  function Start<M>(): Pipe<M> {
    Pipe([], [], [], [], [], 0, Idle, [], [], [])
  }

  /** Sends block on a full channel, receives on an empty one. */
  predicate Enabled<M>(p: Pipe<M>, a: Act<M>) {
    match a
    case Put(_) => |p.putCh| < PUT_CAPACITY
    case Receive => p.outgoing == [] && p.putCh != []
    case Tick => p.outgoing == []
    case SendBatch => p.outgoing != [] && |p.batchCh| < BATCH_CAPACITY
    case Take => p.writer.Idle? && p.batchCh != []
    case Return(_) =>
      match p.writer
      case Idle => false
      case Calling(_) => true
      case Retrying(es, next) => next < |es|
  }

  function Apply<M>(retries: bool, p: Pipe<M>, a: Act<M>): Pipe<M>
    requires Enabled(p, a)
  {
    match a
    case Put(m) => p.(puts := p.puts + [m], putCh := p.putCh + [m])
    case Receive =>
      var t := BatchTurn(p.buffer, Data(p.putCh[0]));
      p.(putCh := p.putCh[1..], buffer := t.buffer, outgoing := t.out)
    case Tick =>
      var t := BatchTurn(p.buffer, Ticked(|p.putCh|));
      p.(buffer := t.buffer, outgoing := t.out)
    case SendBatch => p.(outgoing := p.outgoing[1..], batchCh := p.batchCh + [p.outgoing[0]])
    case Take =>
      var batch := p.batchCh[0];
      p.(batchCh := p.batchCh[1..], taken := p.taken + [batch],
         nextId := p.nextId + |batch|, writer := Calling(Number(p.nextId, batch)))
    case Return(outcome) => Answered(retries, p, outcome)
  }

  function Answered<M>(retries: bool, p: Pipe<M>, outcome: Outcome): Pipe<M>
    requires Enabled(p, Return(outcome))
  {
    match p.writer
    case Calling(es) =>
      var q := p.(calls := p.calls + [Call(es, outcome)]);
      if retries && outcome == TooLong && es != [] then q.(writer := Retrying(es, 0))
      else q.(writer := Idle, attempted := p.attempted + Bodies(es))
    case Retrying(es, next) =>
      p.(calls := p.calls + [Call([es[next]], outcome)],
         attempted := p.attempted + [es[next].body],
         writer := if next + 1 == |es| then Idle else Retrying(es, next + 1))
  }

  /** The state after a schedule, None when some step of it could not be taken. */
  function Exec<M>(retries: bool, p: Pipe<M>, acts: seq<Act<M>>): Option<Pipe<M>> {
    if acts == [] then Some(p) else
    match Exec(retries, p, acts[..|acts| - 1])
    case None => None
    case Some(q) => if Enabled(q, acts[|acts| - 1]) then Some(Apply(retries, q, acts[|acts| - 1])) else None
  }

  /** A run: a schedule from the empty pipe. */
  function Run<M>(retries: bool, acts: seq<Act<M>>): Option<Pipe<M>> {
    Exec(retries, Start(), acts)
  }

  // ---- invariants ----

  /** The part of the writer's current batch whose last request has not returned yet. */
  function Working<M>(w: Writer<M>): seq<M> {
    match w
    case Idle => []
    case Calling(es) => Bodies(es)
    case Retrying(es, next) => if next <= |es| then Bodies(es[next..]) else []
  }

  /** What waits behind the writer, oldest first. */
  function Queued<M>(p: Pipe<M>): seq<M> {
    Flatten(p.batchCh) + (Flatten(p.outgoing) + (p.buffer + p.putCh))
  }

  /** Everything put but not yet attempted, oldest first. */
  function InPipe<M>(p: Pipe<M>): seq<M> {
    Working(p.writer) + Queued(p)
  }

  ghost predicate GoodBatch<M>(b: seq<M>) {
    1 <= |b| <= BATCH_SIZE
  }

  /** Channel bounds, and every batch in flight holds one to ten messages. */
  ghost predicate Sized<M>(p: Pipe<M>) {
    && |p.putCh| <= PUT_CAPACITY
    && |p.batchCh| <= BATCH_CAPACITY
    && |p.buffer| < BATCH_SIZE
    && |p.outgoing| <= 1
    && (p.outgoing != [] ==> p.buffer == [])
    && (forall k :: 0 <= k < |p.outgoing| ==> GoodBatch(p.outgoing[k]))
    && (forall k :: 0 <= k < |p.batchCh| ==> GoodBatch(p.batchCh[k]))
    && (!p.writer.Idle? ==> 1 <= |p.writer.entries| <= BATCH_SIZE)
    && (p.writer.Retrying? ==> p.writer.next < |p.writer.entries|)
  }

  /** First in, first out: attempted messages, then the writer's batch, the queued batches,
      the batcher's batch or buffer and the put queue are all the Puts in order. */
  ghost predicate Conserved<M>(p: Pipe<M>) {
    p.attempted + InPipe(p) == p.puts
  }

  /** The writer's entries carry their message's position among all Puts as id. */
  ghost predicate Numbered<M>(p: Pipe<M>) {
    && p.nextId == |p.attempted| + |Working(p.writer)|
    && match p.writer
       case Idle => true
       case Calling(es) => forall k :: 0 <= k < |es| ==> es[k].id == |p.attempted| + k
       case Retrying(es, next) => forall k :: 0 <= k < |es| ==> es[k].id + next == |p.attempted| + k
  }

  ghost predicate Inv<M>(p: Pipe<M>) {
    Sized(p) && Conserved(p) && Numbered(p)
  }

  lemma SizedStep<M>(retries: bool, p: Pipe<M>, a: Act<M>)
    requires Sized(p) && Enabled(p, a)
    ensures Sized(Apply(retries, p, a))
  {
  }

  lemma ReceiveConserves<M>(retries: bool, p: Pipe<M>)
    requires Sized(p) && Enabled(p, Receive)
    ensures Queued(Apply(retries, p, Receive)) == Queued(p)
  {
    var head, tail := [p.putCh[0]], p.putCh[1..];
    FlattenOne(p.buffer + head);
    assert p.putCh == head + tail;
    assert p.buffer + (head + tail) == (p.buffer + head) + tail;
  }

  lemma TickConserves<M>(retries: bool, p: Pipe<M>)
    requires Sized(p) && Enabled(p, Tick)
    ensures Queued(Apply(retries, p, Tick)) == Queued(p)
  {
    FlattenOne(p.buffer);
  }

  lemma SendConserves<M>(retries: bool, p: Pipe<M>)
    requires Sized(p) && Enabled(p, SendBatch)
    ensures Queued(Apply(retries, p, SendBatch)) == Queued(p)
  {
    assert p.outgoing == [p.outgoing[0]];
    FlattenOne(p.outgoing[0]);
    FlattenJoin(p.batchCh, [p.outgoing[0]]);
  }

  lemma TakeConserves<M>(retries: bool, p: Pipe<M>)
    requires Sized(p) && Enabled(p, Take)
    ensures InPipe(Apply(retries, p, Take)) == InPipe(p)
  {
    var batch := p.batchCh[0];
    var back := Flatten(p.outgoing) + (p.buffer + p.putCh);
    assert Bodies(Number(p.nextId, batch)) == batch;
    assert (batch + Flatten(p.batchCh[1..])) + back == batch + (Flatten(p.batchCh[1..]) + back);
  }

  lemma NextRetried<M>(attempted: seq<M>, es: seq<Entry<M>>, next: nat)
    requires next < |es|
    ensures (attempted + [es[next].body]) + Bodies(es[next + 1..]) == attempted + Bodies(es[next..])
  {
    assert Bodies(es[next..]) == [es[next].body] + Bodies(es[next + 1..]);
  }

  lemma AllRetried<M>(es: seq<Entry<M>>)
    ensures Bodies(es[0..]) == Bodies(es) && Bodies(es[|es|..]) == []
  {
    assert es[0..] == es;
  }

  lemma AnswerMoves<M>(retries: bool, p: Pipe<M>, outcome: Outcome)
    requires Sized(p) && Enabled(p, Return(outcome))
    ensures var q := Answered(retries, p, outcome);
            q.attempted + Working(q.writer) == p.attempted + Working(p.writer)
  {
    AllRetried(p.writer.entries);
    if p.writer.Retrying? {
      NextRetried(p.attempted, p.writer.entries, p.writer.next);
    }
  }

  lemma Regroup<M>(a: seq<M>, b: seq<M>, c: seq<M>)
    ensures (a + b) + c == a + (b + c)
  {
  }

  lemma AnswerConserves<M>(retries: bool, p: Pipe<M>, outcome: Outcome)
    requires Sized(p) && Conserved(p) && Enabled(p, Return(outcome))
    ensures Conserved(Answered(retries, p, outcome))
  {
    var q := Answered(retries, p, outcome);
    AnswerMoves(retries, p, outcome);
    Regroup(p.attempted, Working(p.writer), Queued(p));
    Regroup(q.attempted, Working(q.writer), Queued(p));
  }

  lemma ConservedStep<M>(retries: bool, p: Pipe<M>, a: Act<M>)
    requires Sized(p) && Conserved(p) && Enabled(p, a)
    ensures Conserved(Apply(retries, p, a))
  {
    match a
    case Put(m) =>
      assert InPipe(Apply(retries, p, a)) == InPipe(p) + [m];
    case Receive => ReceiveConserves(retries, p);
    case Tick => TickConserves(retries, p);
    case SendBatch => SendConserves(retries, p);
    case Take => TakeConserves(retries, p);
    case Return(outcome) => AnswerConserves(retries, p, outcome);
  }

  lemma NumberedStep<M>(retries: bool, p: Pipe<M>, a: Act<M>)
    requires Sized(p) && Numbered(p) && Enabled(p, a)
    ensures Numbered(Apply(retries, p, a))
  {
  }

  lemma RunStep<M>(retries: bool, acts: seq<Act<M>>) returns (p: Pipe<M>, a: Act<M>)
    requires acts != [] && Run(retries, acts).Some?
    ensures Run(retries, acts[..|acts| - 1]) == Some(p) && a == acts[|acts| - 1]
    ensures Enabled(p, a) && Run(retries, acts) == Some(Apply(retries, p, a))
  {
    a := acts[|acts| - 1];
    p := Run(retries, acts[..|acts| - 1]).value;
  }

  lemma StepKeepsInv<M>(retries: bool, p: Pipe<M>, a: Act<M>)
    requires Inv(p) && Enabled(p, a)
    ensures Inv(Apply(retries, p, a))
  {
    SizedStep(retries, p, a);
    ConservedStep(retries, p, a);
    NumberedStep(retries, p, a);
  }

  lemma {:induction false} RunKeepsInv<M>(retries: bool, acts: seq<Act<M>>)
    requires Run(retries, acts).Some?
    ensures Inv(Run(retries, acts).value)
  {
    if acts != [] {
      var p, a := RunStep(retries, acts);
      RunKeepsInv(retries, acts[..|acts| - 1]);
      StepKeepsInv(retries, p, a);
    }
  }

  // ---- occupancy ----

  lemma {:induction false} FlattenLength<M>(bs: seq<seq<M>>)
    requires forall k :: 0 <= k < |bs| ==> GoodBatch(bs[k])
    ensures |bs| <= |Flatten(bs)| <= BATCH_SIZE * |bs|
  {
    if bs != [] {
      FlattenLength(bs[1..]);
    }
  }

  /** At most 2020 messages are ever in the pipe, and at most 1020 when the put queue is
      empty, which is all that Stop waits for. */
  lemma Occupancy<M>(p: Pipe<M>)
    requires Inv(p)
    ensures |p.puts| == |p.attempted| + |InPipe(p)|
    ensures |InPipe(p)| <= 2020
    ensures p.putCh == [] ==> |InPipe(p)| <= 1020
  {
    FlattenLength(p.batchCh);
    FlattenLength(p.outgoing);
  }

  // ---- ids ----

  /** Entries the service took, given that a failed request takes none. */
  function AcceptedEntries<M>(calls: seq<Call<M>>): seq<Entry<M>> {
    if calls == [] then [] else
    var last := calls[|calls| - 1];
    AcceptedEntries(calls[..|calls| - 1]) + (if last.outcome == Accepted then last.entries else [])
  }

  ghost predicate Increasing<M>(es: seq<Entry<M>>) {
    forall a, b :: 0 <= a < b < |es| ==> es[a].id < es[b].id
  }

  /** Entry ids are positions among all Puts. */
  ghost predicate CarriesPuts<M>(p: Pipe<M>, es: seq<Entry<M>>) {
    forall k :: 0 <= k < |es| ==> es[k].id < |p.puts| && es[k].body == p.puts[es[k].id]
  }

  /** Every request carries true positions, accepted ids strictly increase and lie below the
      attempted count, and each attempted message was in some request under its position. */
  ghost predicate Disciplined<M>(p: Pipe<M>) {
    && (forall c :: 0 <= c < |p.calls| ==> CarriesPuts(p, p.calls[c].entries))
    && Increasing(AcceptedEntries(p.calls))
    && (forall k :: 0 <= k < |AcceptedEntries(p.calls)| ==> AcceptedEntries(p.calls)[k].id < |p.attempted|)
    && (forall k :: 0 <= k < |p.attempted| ==> Requested(p, k))
  }

  ghost predicate Requested<M>(p: Pipe<M>, k: nat) {
    k < |p.puts| && exists c :: 0 <= c < |p.calls| && Entry(k, p.puts[k]) in p.calls[c].entries
  }

  lemma EntriesCarryPuts<M>(p: Pipe<M>)
    requires Inv(p) && !p.writer.Idle?
    ensures p.writer.Calling? ==> CarriesPuts(p, p.writer.entries)
    ensures p.writer.Retrying? ==> CarriesPuts(p, [p.writer.entries[p.writer.next]])
  {
    var es, n := p.writer.entries, |p.attempted|;
    var w := Working(p.writer);
    assert p.puts == p.attempted + (w + p.puts[n + |w|..]) by {
      assert p.puts == p.attempted + InPipe(p);
    }
    forall k | 0 <= k < |w| ensures p.puts[n + k] == w[k] {}
    match p.writer
    case Idle =>
    case Calling(_) =>
      forall k | 0 <= k < |es| ensures es[k].id < |p.puts| && es[k].body == p.puts[es[k].id] {
        assert w[k] == es[k].body && p.puts[n + k] == w[k];
      }
    case Retrying(_, next) =>
      assert w[0] == es[next].body && p.puts[n + 0] == w[0];
  }

  /** One more request, carrying `sent`, that attempts the messages `sent` numbers (or none yet). */
  lemma DisciplinedCall<M>(p: Pipe<M>, q: Pipe<M>, call: Call<M>)
    requires Disciplined(p) && q.puts == p.puts && q.calls == p.calls + [call]
    requires CarriesPuts(p, call.entries)
    requires forall k :: 0 <= k < |call.entries| ==> call.entries[k].id == |p.attempted| + k
    requires |q.attempted| == |p.attempted| + |call.entries| ||
             (|q.attempted| == |p.attempted| && call.outcome != Accepted)
    ensures Disciplined(q)
  {
    assert q.calls[..|q.calls| - 1] == p.calls;
    var accepted := if call.outcome == Accepted then call.entries else [];
    assert AcceptedEntries(q.calls) == AcceptedEntries(p.calls) + accepted;
    forall k | 0 <= k < |q.attempted| ensures Requested(q, k) {
      if k < |p.attempted| {
        assert Requested(p, k);
        var c :| 0 <= c < |p.calls| && Entry(k, p.puts[k]) in p.calls[c].entries;
        assert q.calls[c] == p.calls[c];
      } else {
        var e := call.entries[k - |p.attempted|];
        assert e.id == k;
        assert e == Entry(k, p.puts[k]);
        assert q.calls[|p.calls|] == call;
      }
    }
  }

  lemma DisciplinedAnswer<M>(retries: bool, p: Pipe<M>, outcome: Outcome)
    requires Inv(p) && Disciplined(p) && Enabled(p, Return(outcome))
    ensures Disciplined(Answered(retries, p, outcome))
  {
    var q := Answered(retries, p, outcome);
    EntriesCarryPuts(p);
    var es := p.writer.entries;
    var sent := if p.writer.Calling? then es else [es[p.writer.next]];
    DisciplinedCall(p, q, Call(sent, outcome));
  }

  lemma DisciplinedStep<M>(retries: bool, p: Pipe<M>, a: Act<M>)
    requires Inv(p) && Disciplined(p) && Enabled(p, a)
    ensures Disciplined(Apply(retries, p, a))
  {
    if a.Return? {
      DisciplinedAnswer(retries, p, a.outcome);
    } else {
      var q := Apply(retries, p, a);
      forall k | 0 <= k < |q.attempted| ensures Requested(q, k) {
        assert Requested(p, k);
      }
    }
  }

  /** Over any pattern of answers: accepted ids strictly increase, so nothing is accepted
      twice, and the message accepted under id k is the k-th one put. */
  lemma {:induction false} IdDiscipline<M>(retries: bool, acts: seq<Act<M>>)
    requires Run(retries, acts).Some?
    ensures Disciplined(Run(retries, acts).value)
  {
    if acts != [] {
      var init := acts[..|acts| - 1];
      IdDiscipline(retries, init);
      RunKeepsInv(retries, init);
      DisciplinedStep(retries, Run(retries, init).value, acts[|acts| - 1]);
    }
  }

  /** Ids below this have been in a request that was answered: those of all messages
      attempted, and while a batch is being retried those of the whole batch. */
  function IdsUsed<M>(p: Pipe<M>): nat {
    if p.writer.Retrying? then p.nextId else |p.attempted|
  }

  ghost predicate UsedExactly<M>(p: Pipe<M>) {
    forall k: nat :: Requested(p, k) <==> k < IdsUsed(p)
  }

  lemma RequestedCall<M>(p: Pipe<M>, q: Pipe<M>, call: Call<M>, k: nat)
    requires q.puts == p.puts && q.calls == p.calls + [call]
    ensures Requested(q, k) <==> Requested(p, k) || (k < |p.puts| && Entry(k, p.puts[k]) in call.entries)
  {
    if Requested(p, k) {
      var c :| 0 <= c < |p.calls| && Entry(k, p.puts[k]) in p.calls[c].entries;
      assert q.calls[c] == p.calls[c];
    }
    assert q.calls[|p.calls|] == call;
  }

  lemma ConsecutiveIds<M>(p: Pipe<M>, es: seq<Entry<M>>, first: nat, k: nat)
    requires CarriesPuts(p, es) && forall n :: 0 <= n < |es| ==> es[n].id == first + n
    ensures k < |p.puts| && Entry(k, p.puts[k]) in es <==> first <= k < first + |es|
  {
    if first <= k < first + |es| {
      assert es[k - first] == Entry(k, p.puts[k]);
    }
  }

  lemma UsedAnswer<M>(retries: bool, p: Pipe<M>, outcome: Outcome)
    requires Inv(p) && UsedExactly(p) && Enabled(p, Return(outcome))
    ensures UsedExactly(Answered(retries, p, outcome))
  {
    var q := Answered(retries, p, outcome);
    EntriesCarryPuts(p);
    var es := p.writer.entries;
    var sent := if p.writer.Calling? then es else [es[p.writer.next]];
    forall k: nat ensures Requested(q, k) <==> k < IdsUsed(q) {
      RequestedCall(p, q, Call(sent, outcome), k);
      ConsecutiveIds(p, sent, |p.attempted|, k);
    }
  }

  lemma UsedPut<M>(p: Pipe<M>, q: Pipe<M>, k: nat)
    requires Disciplined(p) && q.calls == p.calls && p.puts <= q.puts
    ensures Requested(q, k) <==> Requested(p, k)
  {
    if Requested(q, k) {
      var c :| 0 <= c < |p.calls| && Entry(k, q.puts[k]) in p.calls[c].entries;
      assert CarriesPuts(p, p.calls[c].entries);
    }
  }

  lemma UsedStep<M>(retries: bool, p: Pipe<M>, a: Act<M>)
    requires Inv(p) && Disciplined(p) && UsedExactly(p) && Enabled(p, a)
    ensures UsedExactly(Apply(retries, p, a))
  {
    if a.Return? {
      UsedAnswer(retries, p, a.outcome);
    } else {
      var q := Apply(retries, p, a);
      forall k: nat ensures Requested(q, k) <==> k < IdsUsed(q) {
        UsedPut(p, q, k);
      }
    }
  }

  /** Exactly which ids one incarnation has used: 0 up to, but not including, `IdsUsed`. */
  lemma {:induction false} IdsUsedExactly<M>(retries: bool, acts: seq<Act<M>>)
    requires Run(retries, acts).Some?
    ensures UsedExactly(Run(retries, acts).value)
  {
    if acts != [] {
      var init := acts[..|acts| - 1];
      IdsUsedExactly(retries, init);
      IdDiscipline(retries, init);
      RunKeepsInv(retries, init);
      UsedStep(retries, Run(retries, init).value, acts[|acts| - 1]);
    }
  }

  // ---- the requests of a whole run ----

  /** The requests for one batch: the batch itself, and after BatchRequestTooLong (SQS only)
      each entry alone, in order and under the same id. */
  ghost predicate IsRound<M>(retries: bool, calls: seq<Call<M>>, es: seq<Entry<M>>) {
    && calls != []
    && calls[0].entries == es
    && (if retries && calls[0].outcome == TooLong then Retries(calls, es, |es|) else |calls| == 1)
  }

  ghost predicate Retries<M>(calls: seq<Call<M>>, es: seq<Entry<M>>, n: nat) {
    && |calls| == 1 + n && n <= |es|
    && forall k :: 0 <= k < n ==> calls[1 + k].entries == [es[k]]
  }

  function RoundLength<M>(retries: bool, calls: seq<Call<M>>, size: nat): nat
    requires calls != []
  {
    if retries && calls[0].outcome == TooLong then 1 + size else 1
  }

  /** `calls` is one round per batch, ids counting on from `id`. */
  ghost predicate WriterLog<M>(retries: bool, calls: seq<Call<M>>, id: nat, batches: seq<seq<M>>)
    decreases |batches|
  {
    if batches == [] then calls == [] else
    && calls != []
    && var n := RoundLength(retries, calls, |batches[0]|);
       && n <= |calls|
       && IsRound(retries, calls[..n], Number(id, batches[0]))
       && WriterLog(retries, calls[n..], id + |batches[0]|, batches[1..])
  }

  lemma WriterLogJoin<M>(retries: bool, round: seq<Call<M>>, id: nat, batch: seq<M>,
                         calls: seq<Call<M>>, batches: seq<seq<M>>)
    requires IsRound(retries, round, Number(id, batch))
    requires WriterLog(retries, calls, id + |batch|, batches)
    ensures WriterLog(retries, round + calls, id, [batch] + batches)
  {
    assert (round + calls)[..|round|] == round && (round + calls)[|round|..] == calls;
    assert ([batch] + batches)[1..] == batches;
  }

  lemma {:induction false} WriterLogExtends<M>(retries: bool, calls: seq<Call<M>>, id: nat, batches: seq<seq<M>>,
                                               round: seq<Call<M>>, batch: seq<M>)
    requires WriterLog(retries, calls, id, batches)
    requires IsRound(retries, round, Number(id + |Flatten(batches)|, batch))
    ensures WriterLog(retries, calls + round, id, batches + [batch])
    decreases |batches|
  {
    if batches == [] {
      WriterLogJoin(retries, round, id, batch, [], []);
      assert calls + round == round + [] && batches + [batch] == [batch] + [];
    } else {
      var n := RoundLength(retries, calls, |batches[0]|);
      var first, rest, more := calls[..n], calls[n..], batches[1..];
      WriterLogExtends(retries, rest, id + |batches[0]|, more, round, batch);
      WriterLogJoin(retries, first, id, batches[0], rest + round, more + [batch]);
      assert calls + round == first + (rest + round);
      assert batches + [batch] == [batches[0]] + (more + [batch]);
    }
  }

  /** The machine's request log is the writer loop's: complete rounds for all batches taken,
      with the current one possibly unfinished. */
  ghost predicate Logged<M>(retries: bool, p: Pipe<M>) {
    match p.writer
    case Idle => WriterLog(retries, p.calls, 0, p.taken)
    case Calling(es) => Current(retries, p.calls, p.taken, es)
    case Retrying(es, next) =>
      && retries
      && next < |p.calls|
      && Current(retries, p.calls[..|p.calls| - 1 - next], p.taken, es)
      && p.calls[|p.calls| - 1 - next] == Call(es, TooLong)
      && Retries(p.calls[|p.calls| - 1 - next..], es, next)
  }

  ghost predicate Current<M>(retries: bool, calls: seq<Call<M>>, taken: seq<seq<M>>, es: seq<Entry<M>>) {
    && taken != []
    && WriterLog(retries, calls, 0, taken[..|taken| - 1])
    && es == Number(|Flatten(taken[..|taken| - 1])|, taken[|taken| - 1])
  }

  ghost predicate TakenInOrder<M>(p: Pipe<M>) {
    Flatten(p.taken) == p.attempted + Working(p.writer)
  }

  lemma FinishRound<M>(retries: bool, done: seq<Call<M>>, taken: seq<seq<M>>, es: seq<Entry<M>>, round: seq<Call<M>>)
    requires Current(retries, done, taken, es) && IsRound(retries, round, es)
    ensures WriterLog(retries, done + round, 0, taken)
  {
    var init := taken[..|taken| - 1];
    WriterLogExtends(retries, done, 0, init, round, taken[|taken| - 1]);
    assert init + [taken[|taken| - 1]] == taken;
  }

  lemma LoggedAnswer<M>(retries: bool, p: Pipe<M>, outcome: Outcome)
    requires Sized(p) && Logged(retries, p) && p.writer.Calling?
    ensures Logged(retries, Answered(retries, p, outcome))
  {
    var q := Answered(retries, p, outcome);
    var es := p.writer.entries;
    if q.writer.Idle? {
      FinishRound(retries, p.calls, p.taken, es, [Call(es, outcome)]);
    } else {
      assert q.calls[..|q.calls| - 1] == p.calls;
      assert q.calls[|q.calls| - 1..] == [Call(es, outcome)];
    }
  }

  lemma SplitNext<M>(calls: seq<Call<M>>, start: nat, call: Call<M>)
    requires start <= |calls|
    ensures var longer := calls + [call];
            && longer[..start] == calls[..start] && longer[start..] == calls[start..] + [call]
            && longer == calls[..start] + (calls[start..] + [call])
  {
  }

  lemma LoggedRetry<M>(retries: bool, p: Pipe<M>, outcome: Outcome)
    requires Sized(p) && Logged(retries, p) && p.writer.Retrying?
    ensures Logged(retries, Answered(retries, p, outcome))
  {
    var q := Answered(retries, p, outcome);
    var es, next := p.writer.entries, p.writer.next;
    var start := |p.calls| - 1 - next;
    var done, begun, call := p.calls[..start], p.calls[start..], Call([es[next]], outcome);
    SplitNext(p.calls, start, call);
    RetriesExtend(begun, es, next, call);
    if q.writer.Idle? {
      FinishRound(retries, done, p.taken, es, begun + [call]);
    }
  }

  lemma RetriesExtend<M>(calls: seq<Call<M>>, es: seq<Entry<M>>, n: nat, call: Call<M>)
    requires n < |es| && Retries(calls, es, n) && call.entries == [es[n]]
    ensures Retries(calls + [call], es, n + 1)
  {
  }

  lemma LoggedTake<M>(retries: bool, p: Pipe<M>)
    requires Logged(retries, p) && TakenInOrder(p) && Numbered(p) && Enabled(p, Take)
    ensures Logged(retries, Apply(retries, p, Take)) && TakenInOrder(Apply(retries, p, Take))
  {
    var q := Apply(retries, p, Take);
    var batch := p.batchCh[0];
    assert q.taken[..|q.taken| - 1] == p.taken;
    FlattenJoin(p.taken, [batch]);
    FlattenOne(batch);
    assert Bodies(Number(p.nextId, batch)) == batch;
  }

  lemma LoggedReturn<M>(retries: bool, p: Pipe<M>, outcome: Outcome)
    requires Sized(p) && Logged(retries, p) && TakenInOrder(p) && !p.writer.Idle?
    ensures Logged(retries, Answered(retries, p, outcome)) && TakenInOrder(Answered(retries, p, outcome))
  {
    AnswerMoves(retries, p, outcome);
    if p.writer.Calling? { LoggedAnswer(retries, p, outcome); } else { LoggedRetry(retries, p, outcome); }
  }

  lemma LoggedStep<M>(retries: bool, p: Pipe<M>, a: Act<M>)
    requires Sized(p) && Numbered(p) && Logged(retries, p) && TakenInOrder(p) && Enabled(p, a)
    ensures Logged(retries, Apply(retries, p, a)) && TakenInOrder(Apply(retries, p, a))
  {
    match a
    case Take => LoggedTake(retries, p);
    case Return(outcome) => LoggedReturn(retries, p, outcome);
    case _ => WriterUntouched(retries, p, a);
  }

  lemma WriterUntouched<M>(retries: bool, p: Pipe<M>, a: Act<M>)
    requires Enabled(p, a) && !a.Take? && !a.Return?
    ensures var q := Apply(retries, p, a);
            q.writer == p.writer && q.taken == p.taken && q.calls == p.calls && q.attempted == p.attempted
  {
  }

  /** In every interleaving the requests made are exactly the writer loop's: a round per batch
      taken, in order, with ids counting from 0 and the last round possibly under way. */
  lemma {:induction false} RunIsLogged<M>(retries: bool, acts: seq<Act<M>>)
    requires Run(retries, acts).Some?
    ensures Logged(retries, Run(retries, acts).value)
    ensures TakenInOrder(Run(retries, acts).value)
  {
    if acts != [] {
      var p, a := RunStep(retries, acts);
      RunIsLogged(retries, acts[..|acts| - 1]);
      RunKeepsInv(retries, acts[..|acts| - 1]);
      LoggedStep(retries, p, a);
    }
  }

  // ---- the shape of batches ----

  /** Every batch the batcher has decided to send so far, in order. */
  function Emitted<M>(p: Pipe<M>): seq<seq<M>> {
    p.taken + p.batchCh + p.outgoing
  }

  /** The input a step hands to the batcher, if it is one of the batcher's turns. */
  function InputOf<M>(p: Pipe<M>, a: Act<M>): seq<Input<M>> {
    match a
    case Receive => if p.putCh == [] then [] else [Data(p.putCh[0])]
    case Tick => [Ticked(|p.putCh|)]
    case _ => []
  }

  /** The inputs the batcher's select delivered during a schedule. */
  function Inputs<M>(retries: bool, acts: seq<Act<M>>): seq<Input<M>> {
    if acts == [] then [] else
    var before := Inputs(retries, acts[..|acts| - 1]);
    match Run(retries, acts[..|acts| - 1])
    case None => before
    case Some(p) => before + InputOf(p, acts[|acts| - 1])
  }

  /** From p to q the batcher's buffer and emitted batches change as one turn on `input` says. */
  ghost predicate Turned<M>(p: Pipe<M>, q: Pipe<M>, input: Input<M>) {
    var t := BatchTurn(p.buffer, input);
    q.buffer == t.buffer && Emitted(q) == Emitted(p) + t.out
  }

  ghost predicate NotTurned<M>(p: Pipe<M>, q: Pipe<M>) {
    q.buffer == p.buffer && Emitted(q) == Emitted(p)
  }

  lemma ReceiveTurns<M>(retries: bool, p: Pipe<M>)
    requires Enabled(p, Receive)
    ensures Turned(p, Apply(retries, p, Receive), Data(p.putCh[0]))
  {
  }

  lemma TickTurns<M>(retries: bool, p: Pipe<M>)
    requires Enabled(p, Tick)
    ensures Turned(p, Apply(retries, p, Tick), Ticked(|p.putCh|))
  {
  }

  lemma SendBatchMoves<M>(retries: bool, p: Pipe<M>)
    requires Sized(p) && Enabled(p, SendBatch)
    ensures NotTurned(p, Apply(retries, p, SendBatch))
  {
    assert p.outgoing == [p.outgoing[0]];
  }

  lemma TakeMoves<M>(retries: bool, p: Pipe<M>)
    requires Enabled(p, Take)
    ensures NotTurned(p, Apply(retries, p, Take))
  {
    assert p.batchCh == [p.batchCh[0]] + p.batchCh[1..];
  }

  lemma EmittedStep<M>(retries: bool, p: Pipe<M>, a: Act<M>)
    requires Sized(p) && Enabled(p, a)
    ensures var q := Apply(retries, p, a);
            if InputOf(p, a) == [] then NotTurned(p, q) else Turned(p, q, InputOf(p, a)[0])
  {
    match a
    case Receive => ReceiveTurns(retries, p);
    case Tick => TickTurns(retries, p);
    case SendBatch => SendBatchMoves(retries, p);
    case Take => TakeMoves(retries, p);
    case _ =>
  }

  lemma LoopExtends<M>(inputs: seq<Input<M>>, input: seq<Input<M>>)
    requires |input| <= 1
    ensures var b := BatchLoop(inputs);
            BatchLoop(inputs + input) ==
            if input == [] then b
            else var t := BatchTurn(b.buffer, input[0]); Batched(t.buffer, b.out + t.out)
  {
    if input == [] {
      assert inputs + input == inputs;
    } else {
      assert (inputs + input)[..|inputs + input| - 1] == inputs;
    }
  }

  /** In every interleaving the batcher's buffer and the batches it emitted are what its
      loop alone computes from the inputs it was given. */
  lemma {:induction false} BatcherRunsItsLoop<M>(retries: bool, acts: seq<Act<M>>)
    requires Run(retries, acts).Some?
    ensures BatchLoop(Inputs(retries, acts)) ==
            Batched(Run(retries, acts).value.buffer, Emitted(Run(retries, acts).value))
  {
    if acts != [] {
      var init := acts[..|acts| - 1];
      var p, a := RunStep(retries, acts);
      BatcherRunsItsLoop(retries, init);
      RunKeepsInv(retries, init);
      EmittedStep(retries, p, a);
      LoopExtends(Inputs(retries, init), InputOf(p, a));
    }
  }

  /** Step t of the schedule was a tick that saw an empty put queue and the batch `b` waiting. */
  ghost predicate QuietTick<M>(retries: bool, acts: seq<Act<M>>, t: nat, b: seq<M>) {
    && t < |acts| && acts[t].Tick?
    && Run(retries, acts[..t]).Some?
    && Run(retries, acts[..t]).value.putCh == []
    && Run(retries, acts[..t]).value.buffer == b
  }

  ghost predicate WellShaped<M>(retries: bool, acts: seq<Act<M>>, b: seq<M>) {
    GoodBatch(b) && (|b| < BATCH_SIZE ==> exists t :: QuietTick(retries, acts, t, b))
  }

  lemma ShapeLasts<M>(retries: bool, acts: seq<Act<M>>, a: Act<M>, b: seq<M>)
    requires WellShaped(retries, acts, b)
    ensures WellShaped(retries, acts + [a], b)
  {
    if |b| < BATCH_SIZE {
      var t: nat :| QuietTick(retries, acts, t, b);
      assert (acts + [a])[..t] == acts[..t];
      assert QuietTick(retries, acts + [a], t, b);
    }
  }

  lemma NewBatchShape<M>(retries: bool, acts: seq<Act<M>>, p: Pipe<M>, a: Act<M>, b: seq<M>)
    requires Run(retries, acts) == Some(p) && Sized(p) && Enabled(p, a)
    requires InputOf(p, a) != [] && b in BatchTurn(p.buffer, InputOf(p, a)[0]).out
    ensures WellShaped(retries, acts + [a], b)
  {
    if |b| < BATCH_SIZE {
      assert (acts + [a])[..|acts|] == acts;
      assert QuietTick(retries, acts + [a], |acts|, b);
    }
  }

  /** Every batch ever emitted has one to ten messages, and a short one was emitted by a tick
      that found the put queue empty. */
  lemma {:induction false} BatchShape<M>(retries: bool, acts: seq<Act<M>>, b: seq<M>)
    requires Run(retries, acts).Some? && b in Emitted(Run(retries, acts).value)
    ensures WellShaped(retries, acts, b)
  {
    if acts != [] {
      var init := acts[..|acts| - 1];
      var p, a := RunStep(retries, acts);
      assert acts == init + [a];
      RunKeepsInv(retries, init);
      EmittedStep(retries, p, a);
      if b in Emitted(p) {
        BatchShape(retries, init, b);
        ShapeLasts(retries, init, a, b);
      } else {
        NewBatchShape(retries, init, p, a, b);
      }
    }
  }

  // ---- draining ----

  /** A step that moves a message on: everything but Put and an idle tick. */
  predicate Progress<M>(p: Pipe<M>, a: Act<M>) {
    Enabled(p, a) && !a.Put? && (a.Tick? ==> p.putCh == [] && p.buffer != [])
  }

  /** Each message is charged for the stages still ahead of it. */
  function Measure<M>(p: Pipe<M>): nat {
    6 * |p.putCh| + 5 * |p.buffer| + 4 * |Flatten(p.outgoing)| + 3 * |Flatten(p.batchCh)| +
    (match p.writer
     case Idle => 0
     case Calling(es) => 2 * |es|
     case Retrying(es, next) => if next <= |es| then |es| - next else 0)
  }

  /** No deadlock on the bounded channels: with anything in the pipe, some step moves a message. */
  lemma NoDeadlock<M>(p: Pipe<M>) returns (a: Act<M>)
    requires Inv(p) && InPipe(p) != []
    ensures Progress(p, a)
  {
    if !p.writer.Idle? {
      a := Return(OtherError);
    } else if p.batchCh != [] {
      a := Take;
    } else if p.outgoing != [] {
      a := SendBatch;
    } else if p.putCh != [] {
      a := Receive;
    } else {
      a := Tick;
    }
  }

  lemma MeasureFalls<M>(retries: bool, p: Pipe<M>, a: Act<M>)
    requires Inv(p) && Progress(p, a)
    ensures Measure(Apply(retries, p, a)) < Measure(p)
  {
    match a
    case Receive => FlattenOne(p.buffer + [p.putCh[0]]);
    case Tick => FlattenOne(p.buffer);
    case SendBatch =>
      assert p.outgoing == [p.outgoing[0]];
      FlattenOne(p.outgoing[0]);
      FlattenJoin(p.batchCh, [p.outgoing[0]]);
    case Take =>
    case Return(_) =>
    case Put(_) =>
  }

  /** How many steps of the schedule moved a message. */
  function Moves<M>(retries: bool, p: Pipe<M>, acts: seq<Act<M>>): nat {
    if acts == [] then 0 else
    var init := acts[..|acts| - 1];
    Moves(retries, p, init) +
    match Exec(retries, p, init)
    case None => 0
    case Some(q) => if Progress(q, acts[|acts| - 1]) then 1 else 0
  }

  lemma IdleStep<M>(retries: bool, p: Pipe<M>, a: Act<M>)
    requires Inv(p) && Enabled(p, a) && !a.Put? && !Progress(p, a)
    ensures Apply(retries, p, a) == p
  {
  }

  lemma DrainStep<M>(retries: bool, p: Pipe<M>, a: Act<M>)
    requires Inv(p) && Enabled(p, a) && !a.Put?
    ensures Apply(retries, p, a).puts == p.puts
    ensures Measure(Apply(retries, p, a)) + (if Progress(p, a) then 1 else 0) <= Measure(p)
  {
    if Progress(p, a) { MeasureFalls(retries, p, a); } else { IdleStep(retries, p, a); }
  }

  /** Once Puts stop, at most Measure steps move a message, however the steps interleave with
      idle ticks. */
  lemma {:induction false} Drain<M>(retries: bool, p: Pipe<M>, acts: seq<Act<M>>)
    requires Inv(p) && Exec(retries, p, acts).Some?
    requires forall k :: 0 <= k < |acts| ==> !acts[k].Put?
    ensures Inv(Exec(retries, p, acts).value) && Exec(retries, p, acts).value.puts == p.puts
    ensures Measure(Exec(retries, p, acts).value) + Moves(retries, p, acts) <= Measure(p)
  {
    if acts != [] {
      var init, a := acts[..|acts| - 1], acts[|acts| - 1];
      Drain(retries, p, init);
      var q := Exec(retries, p, init).value;
      StepKeepsInv(retries, q, a);
      DrainStep(retries, q, a);
    }
  }

  /** A pipe in which nothing can move any more has attempted every message put, in order. */
  lemma StuckMeansDone<M>(p: Pipe<M>)
    requires Inv(p)
    requires forall a :: !Progress(p, a)
    ensures p.attempted == p.puts
  {
    if InPipe(p) != [] {
      var a := NoDeadlock(p);
    }
  }

  lemma {:induction false} ExecFirst<M>(retries: bool, p: Pipe<M>, a: Act<M>, acts: seq<Act<M>>)
    requires Enabled(p, a)
    ensures Exec(retries, p, [a] + acts) == Exec(retries, Apply(retries, p, a), acts)
  {
    var all := [a] + acts;
    if acts == [] {
      assert all[..0] == [];
    } else {
      assert all[..|all| - 1] == [a] + acts[..|acts| - 1];
      ExecFirst(retries, p, a, acts[..|acts| - 1]);
    }
  }

  /** From every reachable pipe some schedule without Puts attempts everything. */
  lemma {:induction false} CanDrain<M>(retries: bool, p: Pipe<M>) returns (acts: seq<Act<M>>)
    requires Inv(p)
    ensures forall k :: 0 <= k < |acts| ==> !acts[k].Put?
    ensures Exec(retries, p, acts).Some? && Exec(retries, p, acts).value.attempted == p.puts
    decreases Measure(p)
  {
    if InPipe(p) == [] {
      acts := [];
    } else {
      var a := NoDeadlock(p);
      StepKeepsInv(retries, p, a);
      DrainStep(retries, p, a);
      var rest := CanDrain(retries, Apply(retries, p, a));
      ExecFirst(retries, p, a, rest);
      acts := [a] + rest;
    }
  }
}

/** The occupancy bounds of the batching sink are reached: runs that fill every stage. */
module PipelineBounds {
  import opened Checkpoint
  import opened Pipeline

  /** The schedule reaches a pipe with these stage sizes and nothing attempted yet. */
  ghost predicate At<M>(retries: bool, acts: seq<Act<M>>, puts: nat, queued: nat, buffered: nat,
                        blocked: nat, batches: nat, idle: bool) {
    && Run(retries, acts).Some?
    && var p := Run(retries, acts).value;
       && |p.puts| == puts && p.attempted == []
       && |p.putCh| == queued && |p.buffer| == buffered && |p.outgoing| == blocked
       && |p.batchCh| == batches && p.writer.Idle? == idle
  }

  lemma Extend<M>(retries: bool, acts: seq<Act<M>>, a: Act<M>)
    requires Run(retries, acts).Some? && Enabled(Run(retries, acts).value, a)
    ensures Run(retries, acts + [a]) == Some(Apply(retries, Run(retries, acts).value, a))
  {
    assert (acts + [a])[..|acts|] == acts;
  }

  /** Put one message and let the batcher receive it. */
  lemma PutAndReceive<M>(retries: bool, acts: seq<Act<M>>, m: M, puts: nat, buffered: nat, batches: nat, idle: bool)
      returns (more: seq<Act<M>>)
    requires At(retries, acts, puts, 0, buffered, 0, batches, idle) && buffered < BATCH_SIZE
    ensures if buffered + 1 == BATCH_SIZE then At(retries, more, puts + 1, 0, 0, 1, batches, idle)
            else At(retries, more, puts + 1, 0, buffered + 1, 0, batches, idle)
  {
    Extend(retries, acts, Put(m));
    more := acts + [Put(m)];
    Extend(retries, more, Receive);
    more := more + [Receive];
  }

  /** Ten messages form a batch that the batcher stands ready to send. */
  lemma FormBatch<M>(retries: bool, acts: seq<Act<M>>, m: M, puts: nat, batches: nat, idle: bool)
      returns (more: seq<Act<M>>)
    requires At(retries, acts, puts, 0, 0, 0, batches, idle)
    ensures At(retries, more, puts + BATCH_SIZE, 0, 0, 1, batches, idle)
  {
    more := acts;
    for n := 0 to BATCH_SIZE - 1
      invariant At(retries, more, puts + n, 0, n, 0, batches, idle)
    {
      more := PutAndReceive(retries, more, m, puts + n, n, batches, idle);
    }
    more := PutAndReceive(retries, more, m, puts + BATCH_SIZE - 1, BATCH_SIZE - 1, batches, idle);
  }

  lemma QueueBatch<M>(retries: bool, acts: seq<Act<M>>, m: M, puts: nat, batches: nat, idle: bool)
      returns (more: seq<Act<M>>)
    requires At(retries, acts, puts, 0, 0, 0, batches, idle) && batches < BATCH_CAPACITY
    ensures At(retries, more, puts + BATCH_SIZE, 0, 0, 0, batches + 1, idle)
  {
    more := FormBatch(retries, acts, m, puts, batches, idle);
    Extend(retries, more, SendBatch);
    more := more + [SendBatch];
  }

  /** The writer waits on a request, the batch queue is full and the batcher is blocked on
      one more batch; the put queue is empty. This is a moment at which Stop returns. */
  lemma StopBoundReached<M>(retries: bool, m: M) returns (acts: seq<Act<M>>)
    ensures Run(retries, acts).Some? && Run(retries, acts).value.putCh == []
    ensures |InPipe(Run(retries, acts).value)| == 1020
    ensures At(retries, acts, 1020, 0, 0, 1, BATCH_CAPACITY, false)
  {
    acts := QueueBatch(retries, [], m, 0, 0, true);
    Extend(retries, acts, Take);
    acts := acts + [Take];
    for n := 0 to BATCH_CAPACITY
      invariant At(retries, acts, BATCH_SIZE * (n + 1), 0, 0, 0, n, false)
    {
      acts := QueueBatch(retries, acts, m, BATCH_SIZE * (n + 1), n, false);
    }
    acts := FormBatch(retries, acts, m, 1010, BATCH_CAPACITY, false);
    RunKeepsInv(retries, acts);
    Occupancy(Run(retries, acts).value);
  }

  /** A further thousand Puts fill the put queue behind it. */
  lemma PipeBoundReached<M>(retries: bool, m: M) returns (acts: seq<Act<M>>)
    ensures Run(retries, acts).Some? && |InPipe(Run(retries, acts).value)| == 2020
  {
    acts := StopBoundReached(retries, m);
    for n := 0 to PUT_CAPACITY
      invariant At(retries, acts, 1020 + n, n, 0, 1, BATCH_CAPACITY, false)
    {
      Extend(retries, acts, Put(m));
      acts := acts + [Put(m)];
    }
    RunKeepsInv(retries, acts);
    Occupancy(Run(retries, acts).value);
  }
}

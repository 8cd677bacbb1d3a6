/** The goroutines of the batching sinks as loops: the batcher shared by SQS and EventBridge,
    and the two writers. Each is run over any finite sequence of what its select delivers. */
module SinkLoops {
  import opened Pipeline

  /** The batch loop; `sent` is what it has sent on batchCh. */
  class Batcher<M(==)> {
    var sent: seq<seq<M>>

    constructor ()
      ensures sent == []
    {
      sent := [];
    }

    method Batch(inputs: seq<Input<M>>) returns (buffer: seq<M>)
      modifies this
      ensures Batched(buffer, sent) == Batched(BatchLoop(inputs).buffer, old(sent) + BatchLoop(inputs).out)
    {
      buffer := [];
      ghost var before := sent;
      for n := 0 to |inputs|
        invariant Batched(buffer, sent) ==
                  Batched(BatchLoop(inputs[..n]).buffer, before + BatchLoop(inputs[..n]).out)
      {
        assert inputs[..n + 1][..n] == inputs[..n];
        match inputs[n]
        case Data(m) =>
          buffer := buffer + [m];
          if |buffer| == BATCH_SIZE {
            sent := sent + [buffer];
            buffer := [];
          }
        case Ticked(queued) =>
          if queued > 0 {
            continue;
          }
          if |buffer| > 0 {
            sent := sent + [buffer];
            buffer := [];
          }
      }
      assert inputs[..|inputs|] == inputs;
    }
  }

  /** The requests of a writer and their answers; the remote service may answer anything. */
  class Service<M> {
    var calls: seq<Call<M>>

    constructor ()
      ensures calls == []
    {
      calls := [];
    }

    method SendBatch(entries: seq<Entry<M>>) returns (err: Outcome)
      modifies this
      ensures calls == old(calls) + [Call(entries, err)]
    {
      err := *;
      calls := calls + [Call(entries, err)];
    }
  }

  lemma NumberExtends<M>(id: nat, batch: seq<M>, k: nat)
    requires k < |batch|
    ensures Number(id, batch[..k + 1]) == Number(id, batch[..k]) + [Entry(id + k, batch[k])]
  {
  }

  lemma FlattenExtends<M>(batches: seq<seq<M>>, n: nat)
    requires n < |batches|
    ensures Flatten(batches[..n + 1]) == Flatten(batches[..n]) + batches[n]
  {
    assert batches[..n + 1] == batches[..n] + [batches[n]];
    FlattenJoin(batches[..n], [batches[n]]);
    FlattenOne(batches[n]);
  }

  class SqsSink<M> {
    const service: Service<M>

    constructor (service: Service<M>)
      ensures this.service == service
    {
      this.service := service;
    }

    /** The write loop over the batches it receives, starting with a fresh id counter. */
    method Write(batches: seq<seq<M>>) returns (id: nat)
      modifies service
      ensures old(service.calls) <= service.calls
      ensures WriterLog(true, service.calls[|old(service.calls)|..], 0, batches)
      ensures id == |Flatten(batches)|
    {
      id := 0;
      ghost var before := service.calls;
      for n := 0 to |batches|
        invariant before <= service.calls
        invariant WriterLog(true, service.calls[|before|..], 0, batches[..n])
        invariant id == |Flatten(batches[..n])|
      {
        FlattenExtends(batches, n);
        ghost var done := service.calls[|before|..];
        ghost var round;
        id, round := WriteBatch(id, batches[n]);
        WriterLogExtends(true, done, 0, batches[..n], round, batches[n]);
        assert service.calls[|before|..] == done + round;
        assert batches[..n + 1] == batches[..n] + [batches[n]];
      }
      assert batches[..|batches|] == batches;
    }

    /** One turn of the write loop: number the batch, send it, and after BatchRequestTooLong
        send its entries one by one. */
    method WriteBatch(firstId: nat, batch: seq<M>) returns (id: nat, ghost round: seq<Call<M>>)
      modifies service
      ensures id == firstId + |batch|
      ensures service.calls == old(service.calls) + round
      ensures IsRound(true, round, Number(firstId, batch))
    {
      var entries: seq<Entry<M>> := [];
      id := firstId;
      for k := 0 to |batch|
        invariant entries == Number(firstId, batch[..k]) && id == firstId + k
        invariant service.calls == old(service.calls)
      {
        NumberExtends(firstId, batch, k);
        entries := entries + [Entry(id, batch[k])];
        id := id + 1;
      }
      assert batch[..|batch|] == batch;
      var err := service.SendBatch(entries);
      round := [Call(entries, err)];
      if err == TooLong {
        for i := 0 to |entries|
          invariant round != [] && round[0] == Call(entries, TooLong)
          invariant service.calls == old(service.calls) + round
          invariant Retries(round, entries, i)
        {
          err := service.SendBatch([entries[i]]);
          round := round + [Call([entries[i]], err)];
        }
      }
    }
  }

  class EventBridgeSink<M> {
    const service: Service<M>

    constructor (service: Service<M>)
      ensures this.service == service
    {
      this.service := service;
    }

    /** The write loop without ids or retry. Entries are numbered here only so that both
        writers speak of the same requests; the numbers are not sent. */
    method Write(batches: seq<seq<M>>)
      modifies service
      ensures old(service.calls) <= service.calls
      ensures WriterLog(false, service.calls[|old(service.calls)|..], 0, batches)
      ensures |service.calls| == |old(service.calls)| + |batches|
    {
      ghost var before := service.calls;
      var position := 0;
      for n := 0 to |batches|
        invariant before <= service.calls
        invariant WriterLog(false, service.calls[|before|..], 0, batches[..n])
        invariant |service.calls| == |before| + n
        invariant position == |Flatten(batches[..n])|
      {
        FlattenExtends(batches, n);
        ghost var done := service.calls[|before|..];
        var entries := Number(position, batches[n]);
        position := position + |batches[n]|;
        var err := service.SendBatch(entries);
        WriterLogExtends(false, done, 0, batches[..n], [Call(entries, err)], batches[n]);
        assert service.calls[|before|..] == done + [Call(entries, err)];
        assert batches[..n + 1] == batches[..n] + [batches[n]];
      }
      assert batches[..|batches|] == batches;
    }
  }
}

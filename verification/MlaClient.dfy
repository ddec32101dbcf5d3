/** Splitting a batch of tensors into accelerator calls. */
module MlaClient {
  import opened RequestKeys
  import opened Modular
  import opened Seqs

  /** One call of the accelerator: the physical addresses of its input and output tensors. */
  datatype Call = Call(inputs: seq<u64>, outputs: seq<u64>)

  /** The address of the k-th tensor of `size` bytes after `start`, with 64-bit wrap-around. */
  function Address(start: u64, size: u64, k: nat): u64 {
    (start + k * size) % TWO_64
  }

  function Addresses(start: u64, size: u64, from: nat, count: nat): (list: seq<u64>)
    ensures |list| == count
  {
    seq<u64>(count, k requires 0 <= k < count => Address(start, size, from + k))
  }

  function TensorCall(inAddr: u64, outAddr: u64, inSize: u64, outSize: u64, from: nat, count: nat): Call {
    Call(Addresses(inAddr, inSize, from, count), Addresses(outAddr, outSize, from, count))
  }

  /** The addresses as plain arithmetic: `count` tensors, counted on from the given one. */
  lemma AddressesAre(start: u64, size: u64, from: nat, count: nat, k: nat)
    requires k < count
    ensures |Addresses(start, size, from, count)| == count
    ensures Addresses(start, size, from, count)[k] == (start + (from + k) * size) % 0x1_0000_0000_0000_0000
  {
    assert Addresses(start, size, from, count)[k] == Address(start, size, from + k);
  }

  /** An address advanced tensor by tensor in two stages is the address advanced at once. */
  lemma AddressOfAdvanced(start: u64, size: u64, m: nat, k: nat)
    ensures Address(Address(start, size, m), size, k) == Address(start, size, m + k)
  {
    AddToResidue(start + m * size, k * size, TWO_64);
    Distributes(m, k, size);
  }

  lemma AddressesOfAdvanced(start: u64, size: u64, m: nat, count: nat)
    ensures Addresses(Address(start, size, m), size, 0, count) == Addresses(start, size, m, count)
  {
    forall k | 0 <= k < count
      ensures Address(Address(start, size, m), size, k) == Address(start, size, m + k)
    {
      AddressOfAdvanced(start, size, m, k);
    }
  }

  method BuildAddrList(list: array<u64>, start: u64, size: u64)
    modifies list
    ensures list[..] == Addresses(start, size, 0, list.Length)
  {
    for i := 0 to list.Length
      invariant forall k :: 0 <= k < i ==> list[k] == Address(start, size, k)
    {
      var offset := i * size % TWO_64;
      AddToResidue(i * size, start, TWO_64);
      list[i] := (start + offset) % TWO_64;
    }
  }

  function Min(a: nat, b: nat): nat { if a <= b then a else b }

  /** Call number `i` when a batch is split into chunks of `model` tensors. */
  function ChunkCall(inAddr: u64, outAddr: u64, inSize: u64, outSize: u64, batch: nat, model: nat, i: nat): Call
    requires i * model <= batch
  {
    TensorCall(inAddr, outAddr, inSize, outSize, i * model, Min(model, batch - i * model))
  }

  function ChunkCount(batch: nat, model: nat): nat
    requires model > 0
  {
    (batch + model - 1) / model
  }

  lemma ChunkStart(batch: nat, model: nat, i: nat)
    requires model > 0 && i < ChunkCount(batch, model)
    ensures i * model < batch
  {
    QuotientBounds(batch + model - 1, model);
    TimesMonotone(i + 1, ChunkCount(batch, model), model);
    Distributes(i, 1, model);
  }

  function ChunkCalls(inAddr: u64, outAddr: u64, inSize: u64, outSize: u64, batch: nat, model: nat, n: nat)
    : (calls: seq<Call>)
    requires model > 0 && n <= ChunkCount(batch, model)
    ensures |calls| == n
  {
    if n == 0 then [] else
    ChunkStart(batch, model, n - 1);
    ChunkCalls(inAddr, outAddr, inSize, outSize, batch, model, n - 1)
      + [ChunkCall(inAddr, outAddr, inSize, outSize, batch, model, n - 1)]
  }

  function InputsOf(calls: seq<Call>): seq<u64> {
    if calls == [] then [] else InputsOf(calls[..|calls| - 1]) + calls[|calls| - 1].inputs
  }

  function OutputsOf(calls: seq<Call>): seq<u64> {
    if calls == [] then [] else OutputsOf(calls[..|calls| - 1]) + calls[|calls| - 1].outputs
  }

  lemma JoinedOneMore(calls: seq<Call>, call: Call)
    ensures InputsOf(calls + [call]) == InputsOf(calls) + call.inputs
    ensures OutputsOf(calls + [call]) == OutputsOf(calls) + call.outputs
  {
    assert (calls + [call])[..|calls|] == calls;
  }

  lemma AddressesAppend(start: u64, size: u64, a: nat, b: nat)
    ensures Addresses(start, size, 0, a) + Addresses(start, size, a, b) == Addresses(start, size, 0, a + b)
  {
  }

  lemma FullChunks(batch: nat, model: nat, n: nat)
    requires model > 0 && n <= ChunkCount(batch, model)
    ensures n < ChunkCount(batch, model) ==> n * model < batch
    ensures n == ChunkCount(batch, model) ==> n * model >= batch
    ensures n > 0 ==> (n - 1) * model < batch
  {
    if n > 0 {
      ChunkStart(batch, model, n - 1);
    }
    if n < ChunkCount(batch, model) {
      ChunkStart(batch, model, n);
    } else {
      assert batch + model - 1 < (n + 1) * model;
    }
  }

  /**
   * The chunks tile the batch: read in call order, the addresses are those of one pass over all tensors.
   */
  lemma {:induction false} ChunksTile(inAddr: u64, outAddr: u64, inSize: u64, outSize: u64, batch: nat, model: nat,
                                      n: nat)
    requires model > 0 && n <= ChunkCount(batch, model)
    ensures
      var calls := ChunkCalls(inAddr, outAddr, inSize, outSize, batch, model, n);
      && InputsOf(calls) == Addresses(inAddr, inSize, 0, Min(batch, n * model))
      && OutputsOf(calls) == Addresses(outAddr, outSize, 0, Min(batch, n * model))
      && (n == ChunkCount(batch, model) ==> Min(batch, n * model) == batch)
  {
    FullChunks(batch, model, n);
    if n > 0 {
      ChunksTile(inAddr, outAddr, inSize, outSize, batch, model, n - 1);
      TilesOneMore(inAddr, outAddr, inSize, outSize, batch, model, n);
    }
  }

  lemma TilesOneMore(inAddr: u64, outAddr: u64, inSize: u64, outSize: u64, batch: nat, model: nat, n: nat)
    requires model > 0 && 0 < n <= ChunkCount(batch, model)
    requires
      var calls := ChunkCalls(inAddr, outAddr, inSize, outSize, batch, model, n - 1);
      && InputsOf(calls) == Addresses(inAddr, inSize, 0, Min(batch, (n - 1) * model))
      && OutputsOf(calls) == Addresses(outAddr, outSize, 0, Min(batch, (n - 1) * model))
    ensures
      var calls := ChunkCalls(inAddr, outAddr, inSize, outSize, batch, model, n);
      && InputsOf(calls) == Addresses(inAddr, inSize, 0, Min(batch, n * model))
      && OutputsOf(calls) == Addresses(outAddr, outSize, 0, Min(batch, n * model))
  {
    hide InputsOf, OutputsOf, Min, ChunkCount, Addresses;
    LastChunk(batch, model, n);
    JoinedOneMore(ChunkCalls(inAddr, outAddr, inSize, outSize, batch, model, n - 1),
                  ChunkCall(inAddr, outAddr, inSize, outSize, batch, model, n - 1));
    var start := (n - 1) * model;
    AddressesAppend(inAddr, inSize, start, Min(model, batch - start));
    AddressesAppend(outAddr, outSize, start, Min(model, batch - start));
  }

  lemma LastChunk(batch: nat, model: nat, n: nat)
    requires model > 0 && 0 < n <= ChunkCount(batch, model)
    ensures 0 <= (n - 1) * model < batch
    ensures Min(batch, (n - 1) * model) == (n - 1) * model
    ensures (n - 1) * model + Min(model, batch - (n - 1) * model) == Min(batch, n * model)
    ensures n < ChunkCount(batch, model) ==> Min(model, batch - (n - 1) * model) == model
  {
    FullChunks(batch, model, n);
    assert n * model == (n - 1) * model + model;
  }

  /** No call exceeds the model's batch size, and all but the last are of exactly that size. */
  lemma {:induction false} ChunkSizes(inAddr: u64, outAddr: u64, inSize: u64, outSize: u64, batch: nat, model: nat,
                                      n: nat, i: nat)
    requires model > 0 && i < n <= ChunkCount(batch, model)
    ensures
      var call := ChunkCalls(inAddr, outAddr, inSize, outSize, batch, model, n)[i];
      && 1 <= |call.inputs| == |call.outputs| <= model
      && (i < ChunkCount(batch, model) - 1 ==> |call.inputs| == model)
  {
    if i < n - 1 {
      ChunkSizes(inAddr, outAddr, inSize, outSize, batch, model, n - 1, i);
    } else {
      LastChunk(batch, model, n);
    }
  }

  /** The accelerator runtime, which is not part of the repository: it logs calls, and some of them fail. */
  class Accelerator {
    const accepts: nat -> bool
    var calls: seq<Call>

    constructor (accepts: nat -> bool)
      ensures this.accepts == accepts && calls == []
    {
      this.accepts, calls := accepts, [];
    }

    method Run(call: Call) returns (status: int)
      modifies this
      ensures calls == old(calls) + [call]
      ensures status == 0 <==> accepts(|old(calls)|)
    {
      status := if accepts(|calls|) then 0 else 1;
      calls := calls + [call];
    }
  }

  class Client {
    const device: Accelerator
    const batchSize: int
    const batchSizeModel: int
    const inTensorSize: u64
    const outTensorSize: u64
    const outputSize: u64

    constructor (device: Accelerator, batchSize: int, batchSizeModel: int, inTensorSize: u64, outTensorSize: u64,
                 outputSize: u64)
      ensures this.device == device && this.batchSize == batchSize && this.batchSizeModel == batchSizeModel
      ensures this.inTensorSize == inTensorSize && this.outTensorSize == outTensorSize && this.outputSize == outputSize
    {
      this.device, this.batchSize, this.batchSizeModel := device, batchSize, batchSizeModel;
      this.inTensorSize, this.outTensorSize, this.outputSize := inTensorSize, outTensorSize, outputSize;
    }

    method RunBatch(inAddr: u64, outAddr: u64, batch: nat, inSize: u64, outSize: u64) returns (status: int)
      modifies device
      ensures device.calls == old(device.calls) + [TensorCall(inAddr, outAddr, inSize, outSize, 0, batch)]
      ensures status == if device.accepts(|old(device.calls)|) then 0 else -1
    {
      var inList, outList := new u64[batch], new u64[batch];
      BuildAddrList(inList, inAddr, inSize);
      BuildAddrList(outList, outAddr, outSize);
      var result := device.Run(Call(inList[..], outList[..]));
      status := if result != 0 then -1 else 0;
    }

    /**
     * The first `n` chunk calls were made after `before`: all of them when the result is 0; otherwise the
     * last one failed, after n - 1 full chunks had completed.
     */
    ghost predicate Chunked(before: seq<Call>, after: seq<Call>, inAddr: u64, outAddr: u64, n: nat, status: int)
      requires 0 < batchSizeModel < batchSize
    {
      && 0 < n <= ChunkCount(batchSize, batchSizeModel)
      && after == before + ChunkCalls(inAddr, outAddr, inTensorSize, outTensorSize, batchSize, batchSizeModel, n)
      && (forall c :: |before| <= c < |before| + n - 1 ==> device.accepts(c))
      && if device.accepts(|before| + n - 1) then status == 0 && n == ChunkCount(batchSize, batchSizeModel)
         else status == -1
    }

    method RunModel(inAddr: u64, outAddr: u64, inDataSize: u64) returns (status: int)
      modifies device
      ensures batchSize < 1 || batchSizeModel < 1 ==> status == -1 && device.calls == old(device.calls)
      ensures batchSize == 1 <= batchSizeModel ==>
        status == 0 && device.calls == old(device.calls) + [Call([inAddr], [outAddr])]
      ensures 1 < batchSize <= batchSizeModel ==>
        && device.calls == old(device.calls)
             + [TensorCall(inAddr, outAddr, inDataSize / batchSize, outputSize / batchSize, 0, batchSize)]
        && status == if device.accepts(|old(device.calls)|) then 0 else -1
      ensures 0 < batchSizeModel < batchSize && batchSize > 1 ==>
        exists n :: Chunked(old(device.calls), device.calls, inAddr, outAddr, n, status)
    {
      if batchSize < 1 {
        return -1;
      }
      if batchSizeModel < 1 {
        return -1;
      }
      status := 0;
      if batchSize == 1 {
        // a failure of the single run is only logged
        var _ := device.Run(Call([inAddr], [outAddr]));
      } else if batchSize <= batchSizeModel {
        status := RunBatch(inAddr, outAddr, batchSize, inDataSize / batchSize, outputSize / batchSize);
      } else {
        status := RunChunks(inAddr, outAddr);
      }
    }

    method RunChunks(inAddr: u64, outAddr: u64) returns (status: int)
      requires 0 < batchSizeModel < batchSize
      modifies device
      ensures exists n :: Chunked(old(device.calls), device.calls, inAddr, outAddr, n, status)
    {
      var runCount := batchSize / batchSizeModel;
      var completed := 0;
      var inOffset, outOffset := inAddr, outAddr;
      AddressAtZero(inAddr, inTensorSize);
      AddressAtZero(outAddr, outTensorSize);
      ChunkSplit(batchSize, batchSizeModel);
      for i := 0 to runCount
        invariant completed == i * batchSizeModel <= batchSize
        invariant inOffset == Address(inAddr, inTensorSize, completed)
        invariant outOffset == Address(outAddr, outTensorSize, completed)
        invariant device.calls == old(device.calls)
          + ChunkCalls(inAddr, outAddr, inTensorSize, outTensorSize, batchSize, batchSizeModel, i)
        invariant forall c :: |old(device.calls)| <= c < |old(device.calls)| + i ==> device.accepts(c)
      {
        WholeChunk(i);
        status := RunBatch(inOffset, outOffset, batchSizeModel, inTensorSize, outTensorSize);
        NextChunk(old(device.calls), inAddr, outAddr, i);
        if status != 0 {
          assert Chunked(old(device.calls), device.calls, inAddr, outAddr, i + 1, -1);
          return -1;
        }
        AdvanceAddress(inAddr, inTensorSize, completed, batchSizeModel);
        AdvanceAddress(outAddr, outTensorSize, completed, batchSizeModel);
        completed := completed + batchSizeModel;
        inOffset := (inOffset + inTensorSize * batchSizeModel % TWO_64) % TWO_64;
        outOffset := (outOffset + outTensorSize * batchSizeModel % TWO_64) % TWO_64;
      }
      status := 0;
      if completed < batchSize {
        var leftOver := batchSize - completed;
        NextChunk(old(device.calls), inAddr, outAddr, runCount);
        status := RunBatch(inOffset, outOffset, leftOver, inTensorSize, outTensorSize);
        assert Chunked(old(device.calls), device.calls, inAddr, outAddr, runCount + 1, status);
      } else {
        assert Chunked(old(device.calls), device.calls, inAddr, outAddr, runCount, status);
      }
    }

    lemma WholeChunk(i: nat)
      requires 0 < batchSizeModel < batchSize && i < batchSize / batchSizeModel
      ensures i < ChunkCount(batchSize, batchSizeModel)
      ensures batchSizeModel <= batchSize - i * batchSizeModel
      ensures (i + 1) * batchSizeModel == i * batchSizeModel + batchSizeModel
    {
      ChunkSplit(batchSize, batchSizeModel);
      assert (i + 1) * batchSizeModel <= batchSize / batchSizeModel * batchSizeModel;
    }

    /** The next call, made at the advanced addresses, is the next chunk call. */
    lemma NextChunk(before: seq<Call>, inAddr: u64, outAddr: u64, i: nat)
      requires 0 < batchSizeModel < batchSize && i < ChunkCount(batchSize, batchSizeModel)
      ensures i * batchSizeModel < batchSize
      ensures
        before + ChunkCalls(inAddr, outAddr, inTensorSize, outTensorSize, batchSize, batchSizeModel, i)
          + [TensorCall(Address(inAddr, inTensorSize, i * batchSizeModel),
                        Address(outAddr, outTensorSize, i * batchSizeModel),
                        inTensorSize, outTensorSize, 0, Min(batchSizeModel, batchSize - i * batchSizeModel))]
        == before + ChunkCalls(inAddr, outAddr, inTensorSize, outTensorSize, batchSize, batchSizeModel, i + 1)
    {
      ChunkStart(batchSize, batchSizeModel, i);
      var count := Min(batchSizeModel, batchSize - i * batchSizeModel);
      AddressesOfAdvanced(inAddr, inTensorSize, i * batchSizeModel, count);
      AddressesOfAdvanced(outAddr, outTensorSize, i * batchSizeModel, count);
      AppendAssociates(before, ChunkCalls(inAddr, outAddr, inTensorSize, outTensorSize, batchSize, batchSizeModel, i),
                       [ChunkCall(inAddr, outAddr, inTensorSize, outTensorSize, batchSize, batchSizeModel, i)]);
    }
  }

  lemma AddressAtZero(start: u64, size: u64)
    ensures Address(start, size, 0) == start
  {
    assert 0 * size == 0;
  }

  lemma AdvanceAddress(start: u64, size: u64, m: nat, k: nat)
    ensures (Address(start, size, m) + size * k % TWO_64) % TWO_64 == Address(start, size, m + k)
  {
    AddressOfAdvanced(start, size, m, k);
    AddToResidue(size * k, Address(start, size, m), TWO_64);
    Commutes(size, k);
  }

  lemma ChunkSplit(batch: nat, model: nat)
    requires 0 < model < batch
    ensures
      var full := batch / model;
      && 0 < full && full * model <= batch < full * model + model
      && ChunkCount(batch, model) == if full * model == batch then full else full + 1
  {
    var full := batch / model;
    assert full * model + batch % model == batch;
    if batch % model == 0 {
      DivModUnique(batch + model - 1, model, full, model - 1);
    } else {
      assert batch + model - 1 == model * (full + 1) + (batch % model - 1);
      DivModUnique(batch + model - 1, model, full + 1, batch % model - 1);
    }
  }
}

/** Working through a list in batches. */
module Batches {
  datatype Settled<R> = Fulfilled(value: R) | Rejected(reason: string)

  /** `items.slice(0, n)` and `items.slice(n)`. */
  function FirstBatch<T>(items: seq<T>, n: nat): seq<T> { if n <= |items| then items[..n] else items }

  function Remaining<T>(items: seq<T>, n: nat): seq<T> { if n <= |items| then items[n..] else [] }

  function MapSeq<T, R>(f: T -> R, items: seq<T>): seq<R> { seq(|items|, i requires 0 <= i < |items| => f(items[i])) }

  /** Whatever the batch size, result i belongs to item i, and there is one for every item. */
  function ProcessInBatches<T, R>(items: seq<T>, batchSize: nat, processor: T -> Settled<R>): (results: seq<Settled<R>>)
    requires batchSize >= 1
    ensures |results| == |items|
    ensures forall i :: 0 <= i < |items| ==> results[i] == processor(items[i])
    decreases |items|
  {
    if items == [] then []
    else MapSeq(processor, FirstBatch(items, batchSize))
         + ProcessInBatches(Remaining(items, batchSize), batchSize, processor)
  }

  function ProcessChunked<T, R>(items: seq<T>, batchSize: nat, processor: seq<T> -> R): (results: seq<R>)
    requires batchSize >= 1
    decreases |items|
  {
    if items == [] then []
    else [processor(FirstBatch(items, batchSize))] + ProcessChunked(Remaining(items, batchSize), batchSize, processor)
  }

  function Identity<T>(batch: seq<T>): seq<T> { batch }

  function Concat<T>(parts: seq<seq<T>>): seq<T> {
    if parts == [] then [] else parts[0] + Concat(parts[1..])
  }

  /** The chunks handed to the processor, put together again, are the list. */
  lemma {:induction false} ChunksMakeUpTheList<T>(items: seq<T>, batchSize: nat)
    requires batchSize >= 1
    ensures Concat(ProcessChunked(items, batchSize, Identity<T>)) == items
    decreases |items|
  {
    if items != [] {
      var rest := ProcessChunked(Remaining(items, batchSize), batchSize, Identity<T>);
      ChunksMakeUpTheList(Remaining(items, batchSize), batchSize);
      ConcatCons(FirstBatch(items, batchSize), rest);
      assert items == FirstBatch(items, batchSize) + Remaining(items, batchSize);
    }
  }

  lemma ConcatCons<T>(part: seq<T>, parts: seq<seq<T>>)
    ensures Concat([part] + parts) == part + Concat(parts)
  {
    assert ([part] + parts)[1..] == parts;
  }

  /** Every chunk but the last is full, and none is empty or too long. */
  ghost predicate Full<T>(chunks: seq<seq<T>>, batchSize: nat) {
    forall i :: 0 <= i < |chunks| ==> 0 < |chunks[i]| <= batchSize && (i < |chunks| - 1 ==> |chunks[i]| == batchSize)
  }

  lemma {:induction false} ChunksAreFull<T>(items: seq<T>, batchSize: nat)
    requires batchSize >= 1
    ensures Full(ProcessChunked(items, batchSize, Identity<T>), batchSize)
    decreases |items|
  {
    if items != [] {
      var remaining := Remaining(items, batchSize);
      ChunksAreFull(remaining, batchSize);
      PrependFull(FirstBatch(items, batchSize), ProcessChunked(remaining, batchSize, Identity<T>), batchSize);
    }
  }

  lemma PrependFull<T>(chunk: seq<T>, chunks: seq<seq<T>>, batchSize: nat)
    requires 0 < |chunk| <= batchSize && Full(chunks, batchSize) && (chunks != [] ==> |chunk| == batchSize)
    ensures Full([chunk] + chunks, batchSize)
  {
  }

  /** Chunked work is the same as the work on its own chunks. */
  lemma {:induction false} ChunkedIsPerChunk<T, R>(items: seq<T>, batchSize: nat, processor: seq<T> -> R)
    requires batchSize >= 1
    ensures ProcessChunked(items, batchSize, processor)
            == MapSeq(processor, ProcessChunked(items, batchSize, Identity<T>))
    decreases |items|
  {
    if items != [] {
      ChunkedIsPerChunk(Remaining(items, batchSize), batchSize, processor);
    }
  }
}

/**
 * The batcher `split_file_ids` (request-JGI-API.py:187-206): the id and size
 * lists are walked in step and cut greedily into download requests, a new
 * batch being started whenever the next file would push the running total
 * past the ceiling of `max_size_tb` tebibytes.
 *
 * The loop is specified by a fold `Pack` over (id, size) items; the
 * properties of the result are lemmas about that fold.
 */
module Batcher {

  /** One file of the download list: its id and its size in bytes. */
  datatype Item = Item(id: string, size: int)

  /** Python's `zip(file_ids, file_sizes)`: pairs up to the shorter list. */
  function Zip(ids: seq<string>, sizes: seq<int>): (r: seq<Item>)
    ensures |r| == if |ids| <= |sizes| then |ids| else |sizes|
    ensures forall i :: 0 <= i < |r| ==> r[i] == Item(ids[i], sizes[i])
  {
    var n := if |ids| <= |sizes| then |ids| else |sizes|;
    seq(n, i requires 0 <= i < n => Item(ids[i], sizes[i]))
  }

  /** The number of bytes in one tebibyte, `1024**4`. */
  const TiB: int := 1024 * 1024 * 1024 * 1024

  /** The ceiling in bytes for a batch, `max_size_tb * 1024**4`. */
  function MaxBytes(maxSizeTb: int): (r: int)
    ensures maxSizeTb >= 0 ==> r >= 0
  {
    maxSizeTb * TiB
  }

  /** The batcher's locals between two iterations: closed batches, the open one and its size. */
  datatype Packing = Packing(batches: seq<seq<Item>>, current: seq<Item>, currentSize: int)

  /** One iteration of the loop at request-JGI-API.py:194-200. */
  function Step(p: Packing, it: Item, maxBytes: int): Packing
  {
    if p.currentSize + it.size > maxBytes then
      Packing(p.batches + [p.current], [it], it.size)
    else
      Packing(p.batches, p.current + [it], p.currentSize + it.size)
  }

  /** The locals after the loop has consumed `items`. */
  function Pack(items: seq<Item>, maxBytes: int): Packing
  {
    if items == [] then Packing([], [], 0)
    else Step(Pack(items[..|items| - 1], maxBytes), items[|items| - 1], maxBytes)
  }

  /** The final `if current_batch:` (request-JGI-API.py:202-203). */
  function Flush(p: Packing): seq<seq<Item>>
  {
    if p.current != [] then p.batches + [p.current] else p.batches
  }

  /** The batches `split_file_ids` builds, with their sizes kept alongside the ids. */
  function Batches(items: seq<Item>, maxBytes: int): seq<seq<Item>>
  {
    Flush(Pack(items, maxBytes))
  }

  function IdsOf(batch: seq<Item>): (r: seq<string>)
    ensures |r| == |batch|
    ensures forall i :: 0 <= i < |r| ==> r[i] == batch[i].id
  {
    seq(|batch|, i requires 0 <= i < |batch| => batch[i].id)
  }

  function BatchIds(bs: seq<seq<Item>>): (r: seq<seq<string>>)
    ensures |r| == |bs|
    ensures forall i :: 0 <= i < |r| ==> r[i] == IdsOf(bs[i])
  {
    seq(|bs|, i requires 0 <= i < |bs| => IdsOf(bs[i]))
  }

  /** The total size of a batch. */
  function Total(batch: seq<Item>): int
  {
    if batch == [] then 0 else Total(batch[..|batch| - 1]) + batch[|batch| - 1].size
  }

  /** All batches laid end to end. */
  function Flatten(bs: seq<seq<Item>>): seq<Item>
  {
    if bs == [] then [] else Flatten(bs[..|bs| - 1]) + bs[|bs| - 1]
  }

  /** `split_file_ids(file_ids, file_sizes, max_size_tb)`. */
  method SplitFileIds(fileIds: seq<string>, fileSizes: seq<int>, maxSizeTb: int) returns (batches: seq<seq<string>>)
    ensures batches == BatchIds(Batches(Zip(fileIds, fileSizes), MaxBytes(maxSizeTb)))
  {
    batches := [];
    var currentBatch: seq<string> := [];
    var currentBatchSize := 0;
    var maxSizeBytes := maxSizeTb * TiB;
    ghost var items := Zip(fileIds, fileSizes);
    var i := 0;
    while i < |fileIds| && i < |fileSizes|
      invariant 0 <= i <= |items|
      invariant batches == BatchIds(Pack(items[..i], maxSizeBytes).batches)
      invariant currentBatch == IdsOf(Pack(items[..i], maxSizeBytes).current)
      invariant currentBatchSize == Pack(items[..i], maxSizeBytes).currentSize
    {
      var fileId, size := fileIds[i], fileSizes[i];
      ghost var p := Pack(items[..i], maxSizeBytes);
      assert items[..i + 1][..i] == items[..i];
      assert Pack(items[..i + 1], maxSizeBytes) == Step(p, Item(fileId, size), maxSizeBytes);
      if currentBatchSize + size > maxSizeBytes {
        assert BatchIds(p.batches + [p.current]) == BatchIds(p.batches) + [IdsOf(p.current)];
        batches := batches + [currentBatch];
        currentBatch := [fileId];
        currentBatchSize := size;
      } else {
        assert IdsOf(p.current + [Item(fileId, size)]) == IdsOf(p.current) + [fileId];
        currentBatch := currentBatch + [fileId];
        currentBatchSize := currentBatchSize + size;
      }
      i := i + 1;
    }
    assert items[..i] == items;
    ghost var p := Pack(items, maxSizeBytes);
    if currentBatch != [] {
      assert BatchIds(p.batches + [p.current]) == BatchIds(p.batches) + [IdsOf(p.current)];
      batches := batches + [currentBatch];
    }
  }

  // ---------------------------------------------------------------------
  // Properties of the fold
  // ---------------------------------------------------------------------

  lemma FlattenSnoc(bs: seq<seq<Item>>, b: seq<Item>)
    ensures Flatten(bs + [b]) == Flatten(bs) + b
  {
    assert (bs + [b])[..|bs|] == bs;
  }

  lemma TotalSnoc(b: seq<Item>, it: Item)
    ensures Total(b + [it]) == Total(b) + it.size
  {
    assert (b + [it])[..|b|] == b;
  }

  /** The batcher loses and reorders nothing, and keeps the open batch's size. */
  lemma {:induction false} PackCovers(items: seq<Item>, maxBytes: int)
    ensures Flatten(Pack(items, maxBytes).batches) + Pack(items, maxBytes).current == items
    ensures Total(Pack(items, maxBytes).current) == Pack(items, maxBytes).currentSize
  {
    if items != [] {
      var init, it := items[..|items| - 1], items[|items| - 1];
      assert init + [it] == items;
      PackCovers(init, maxBytes);
      var p := Pack(init, maxBytes);
      assert Pack(items, maxBytes) == Step(p, it, maxBytes);
      if p.currentSize + it.size > maxBytes {
        FlattenSnoc(p.batches, p.current);
        TotalSnoc([], it);
        assert [] + [it] == [it];
        assert Flatten(p.batches + [p.current]) + [it] == (Flatten(p.batches) + p.current) + [it];
      } else {
        TotalSnoc(p.current, it);
        assert Flatten(p.batches) + (p.current + [it]) == (Flatten(p.batches) + p.current) + [it];
      }
    }
  }

  /** Closed batches and the open batch of two or more files stay within the ceiling. */
  lemma {:induction false} PackWithin(items: seq<Item>, maxBytes: int)
    ensures |Pack(items, maxBytes).current| >= 2 ==> Pack(items, maxBytes).currentSize <= maxBytes
    ensures forall i :: 0 <= i < |Pack(items, maxBytes).batches| && |Pack(items, maxBytes).batches[i]| >= 2 ==>
      Total(Pack(items, maxBytes).batches[i]) <= maxBytes
  {
    if items != [] {
      var init, it := items[..|items| - 1], items[|items| - 1];
      PackWithin(init, maxBytes);
      PackCovers(init, maxBytes);
      var p := Pack(init, maxBytes);
      if p.currentSize + it.size > maxBytes {
        var q := Pack(items, maxBytes);
        assert q.batches == p.batches + [p.current];
        assert forall i :: 0 <= i < |p.batches| ==> q.batches[i] == p.batches[i];
      }
    }
  }

  /** Every closed batch after the first is non-empty, and so is the open batch once one is closed. */
  lemma {:induction false} PackNonEmpty(items: seq<Item>, maxBytes: int)
    ensures forall i :: 1 <= i < |Pack(items, maxBytes).batches| ==> Pack(items, maxBytes).batches[i] != []
    ensures Pack(items, maxBytes).batches != [] ==> Pack(items, maxBytes).current != []
  {
    if items != [] {
      var init, it := items[..|items| - 1], items[|items| - 1];
      PackNonEmpty(init, maxBytes);
      var p := Pack(init, maxBytes);
      if p.currentSize + it.size > maxBytes {
        var q := Pack(items, maxBytes);
        assert q.batches == p.batches + [p.current];
        assert forall i :: 0 <= i < |p.batches| ==> q.batches[i] == p.batches[i];
      }
    }
  }

  /** The first closed batch is empty exactly when the first file alone exceeds the ceiling. */
  lemma {:induction false} PackFirst(items: seq<Item>, maxBytes: int)
    requires items != []
    ensures (|Pack(items, maxBytes).batches| > 0 && Pack(items, maxBytes).batches[0] == []) <==> items[0].size > maxBytes
  {
    var init, it := items[..|items| - 1], items[|items| - 1];
    var p := Pack(init, maxBytes);
    var q := Pack(items, maxBytes);
    if init == [] {
      assert it == items[0];
    } else {
      assert items[0] == init[0];
      PackFirst(init, maxBytes);
      PackCovers(init, maxBytes);
      if p.batches == [] {
        assert Flatten(p.batches) == [];
        assert p.current == init;
      }
      if p.currentSize + it.size > maxBytes {
        assert q.batches == p.batches + [p.current];
        assert q.batches[0] == if p.batches == [] then p.current else p.batches[0];
      }
    }
  }

  lemma FlushInvariant(items: seq<Item>, maxBytes: int)
    ensures var p := Pack(items, maxBytes);
      Flatten(Flush(p)) == items
      && (forall i :: 0 <= i < |Flush(p)| && |Flush(p)[i]| >= 2 ==> Total(Flush(p)[i]) <= maxBytes)
  {
    var p := Pack(items, maxBytes);
    PackCovers(items, maxBytes);
    PackWithin(items, maxBytes);
    if p.current != [] {
      FlattenSnoc(p.batches, p.current);
      assert (p.batches + [p.current])[|p.batches|] == p.current;
    }
  }

  /** Laying the batches end to end gives back exactly the zipped files, in order. */
  lemma BatchesCoverFiles(items: seq<Item>, maxBytes: int)
    ensures Flatten(Batches(items, maxBytes)) == items
    ensures items == [] ==> Batches(items, maxBytes) == []
  {
    FlushInvariant(items, maxBytes);
  }

  /** A batch of two or more files never exceeds the ceiling. */
  lemma BatchesWithinCeiling(items: seq<Item>, maxBytes: int)
    ensures forall i :: 0 <= i < |Batches(items, maxBytes)| && |Batches(items, maxBytes)[i]| >= 2 ==>
      Total(Batches(items, maxBytes)[i]) <= maxBytes
  {
    FlushInvariant(items, maxBytes);
  }

  /**
   * Only the first batch can be empty, and it is empty exactly when the very
   * first file is larger than the ceiling on its own.
   */
  lemma OnlyFirstBatchEmpty(items: seq<Item>, maxBytes: int)
    ensures forall i :: 1 <= i < |Batches(items, maxBytes)| ==> Batches(items, maxBytes)[i] != []
    ensures (|Batches(items, maxBytes)| > 0 && Batches(items, maxBytes)[0] == []) <==>
      (items != [] && items[0].size > maxBytes)
  {
    var p := Pack(items, maxBytes);
    PackNonEmpty(items, maxBytes);
    PackCovers(items, maxBytes);
    if items != [] {
      PackFirst(items, maxBytes);
    }
    if p.current != [] {
      assert Batches(items, maxBytes) == p.batches + [p.current];
    }
  }

  lemma {:induction false} ItemWithinTotal(b: seq<Item>, j: int)
    requires forall k :: 0 <= k < |b| ==> b[k].size >= 0
    requires 0 <= j < |b|
    ensures b[j].size <= Total(b)
    ensures Total(b) >= 0
  {
    var init := b[..|b| - 1];
    if init != [] {
      ItemWithinTotal(init, if j < |init| then j else 0);
    }
    if j < |init| {
      assert init[j] == b[j];
    }
  }

  /** With non-negative sizes, a file larger than the ceiling travels alone. */
  lemma OversizedFileAlone(items: seq<Item>, maxBytes: int)
    requires forall k :: 0 <= k < |items| ==> items[k].size >= 0
    ensures forall i, j ::
      (0 <= i < |Batches(items, maxBytes)| && 0 <= j < |Batches(items, maxBytes)[i]| &&
       Batches(items, maxBytes)[i][j].size > maxBytes) ==>
      Batches(items, maxBytes)[i] == [Batches(items, maxBytes)[i][j]]
  {
    var bs: seq<seq<Item>> := Batches(items, maxBytes);
    BatchesCoverFiles(items, maxBytes);
    BatchesWithinCeiling(items, maxBytes);
    forall i: int, j: int | 0 <= i < |bs| && 0 <= j < |bs[i]| && bs[i][j].size > maxBytes
      ensures bs[i] == [bs[i][j]]
    {
      FlattenMember(bs, i, j);
      forall k | 0 <= k < |bs[i]|
        ensures bs[i][k].size >= 0
      {
        FlattenMember(bs, i, k);
      }
      if |bs[i]| >= 2 {
        ItemWithinTotal(bs[i], j);
        assert false;
      }
    }
  }

  /** Every item of every batch occurs in the flattened list. */
  lemma {:induction false} FlattenMember(bs: seq<seq<Item>>, i: int, j: int)
    requires 0 <= i < |bs| && 0 <= j < |bs[i]|
    ensures bs[i][j] in Flatten(bs)
  {
    var init := bs[..|bs| - 1];
    if i < |init| {
      assert init[i] == bs[i];
      FlattenMember(init, i, j);
    } else {
      assert Flatten(bs) == Flatten(init) + bs[i];
      assert bs[i][j] == Flatten(bs)[|Flatten(init)| + j];
    }
  }

  /** Three 4 TiB files under the default 10 TiB ceiling: two requests. */
  lemma ThreeLargeFiles()
    ensures SplitSpec(["a", "b", "c"], [4 * TiB, 4 * TiB, 4 * TiB], 10) == [["a", "b"], ["c"]]
  {
    var items := Zip(["a", "b", "c"], [4 * TiB, 4 * TiB, 4 * TiB]);
    var m := MaxBytes(10);
    assert items[..2][..1] == items[..1];
    assert items[..3][..2] == items[..2];
    assert items[..1][..0] == [];
    assert items[..3] == items;
    assert Pack(items[..1], m) == Packing([], [items[0]], 4 * TiB);
    assert Pack(items[..2], m) == Packing([], [items[0], items[1]], 8 * TiB);
    assert Pack(items, m) == Packing([[items[0], items[1]]], [items[2]], 4 * TiB);
    var bs := Batches(items, m);
    assert bs == [[items[0], items[1]], [items[2]]];
    assert IdsOf(bs[0]) == ["a", "b"];
    assert IdsOf(bs[1]) == ["c"];
  }

  /** The ids of all batches, laid end to end. */
  function FlattenIds(bs: seq<seq<string>>): seq<string>
  {
    if bs == [] then [] else FlattenIds(bs[..|bs| - 1]) + bs[|bs| - 1]
  }

  lemma {:induction false} FlattenBatchIds(bs: seq<seq<Item>>)
    ensures FlattenIds(BatchIds(bs)) == IdsOf(Flatten(bs))
    decreases |bs|
  {
    if bs != [] {
      var init, b := bs[..|bs| - 1], bs[|bs| - 1];
      FlattenBatchIds(init);
      assert BatchIds(bs)[..|bs| - 1] == BatchIds(init);
      assert IdsOf(Flatten(init) + b) == IdsOf(Flatten(init)) + IdsOf(b);
    }
  }

  /** Pairing and dropping the sizes again gives back the ids, cut to the shorter list. */
  lemma ZipIds(ids: seq<string>, sizes: seq<int>)
    ensures IdsOf(Zip(ids, sizes)) == if |ids| <= |sizes| then ids else ids[..|sizes|]
  {
  }

  /**
   * The returned batches, laid end to end, are the input ids in order, when
   * the two lists have the same length.
   */
  lemma SplitCoversIds(fileIds: seq<string>, fileSizes: seq<int>, maxSizeTb: int)
    requires |fileIds| == |fileSizes|
    ensures FlattenIds(SplitSpec(fileIds, fileSizes, maxSizeTb)) == fileIds
  {
    var items := Zip(fileIds, fileSizes);
    FlattenBatchIds(Batches(items, MaxBytes(maxSizeTb)));
    BatchesCoverFiles(items, MaxBytes(maxSizeTb));
    ZipIds(fileIds, fileSizes);
  }

  /**
   * A batch may reach the ceiling exactly: two 5 TiB files under the default
   * 10 TiB form one batch of 10 TiB, since the loop closes a batch only when
   * the total would exceed the ceiling.
   */
  lemma BatchAtCeiling()
    ensures SplitSpec(["a", "b"], [5 * TiB, 5 * TiB], 10) == [["a", "b"]]
    ensures Total(Batches(Zip(["a", "b"], [5 * TiB, 5 * TiB]), MaxBytes(10))[0]) == MaxBytes(10)
  {
    var items := Zip(["a", "b"], [5 * TiB, 5 * TiB]);
    var m := MaxBytes(10);
    assert items[..2][..1] == items[..1];
    assert items[..1][..0] == [];
    assert items[..2] == items;
    assert Pack(items[..1], m) == Packing([], [items[0]], 5 * TiB);
    assert Pack(items, m) == Packing([], [items[0], items[1]], 10 * TiB);
    var bs := Batches(items, m);
    assert bs == [[items[0], items[1]]];
    assert IdsOf(bs[0]) == ["a", "b"];
    assert [items[0], items[1]][..1] == [items[0]];
    assert Total([items[0]]) == 5 * TiB;
  }

  /** The ids `split_file_ids` returns, as a function of its arguments. */
  function SplitSpec(fileIds: seq<string>, fileSizes: seq<int>, maxSizeTb: int): seq<seq<string>>
  {
    BatchIds(Batches(Zip(fileIds, fileSizes), MaxBytes(maxSizeTb)))
  }
}

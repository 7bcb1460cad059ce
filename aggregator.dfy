/**
 * The two readers of the output table: `extract_file_ids`
 * (request-JGI-API.py:164-185), which lists the file ids to request with their
 * sizes, and the byte-summing part of `calculate_total_file_size`
 * (request-JGI-API.py:145-160). A table row is given by the six cells these
 * readers look at.
 */
module Aggregator {
  import opened Text

  /** The cells of one output row that the readers use, by column name. */
  datatype FileRow = FileRow(
    assemblyFastaFileId: string,
    assemblyFastaFileSize: string,
    rawReadsFileId: string,
    rawReadsFileSize: string,
    binsFastaFileId: string,
    binsFastaFileSize: string)

  /** One file to request: its id and its size in bytes. */
  datatype Entry = Entry(id: string, size: nat)

  /** `int(s) if s.isdigit() else 0`. */
  function SizeOrZero(s: string): nat
  {
    if IsDigits(s) then DecimalValue(s) else 0
  }

  /** A singular column pair: kept when the id is non-empty. */
  function SingleEntry(id: string, size: string): seq<Entry>
  {
    if id != "" then [Entry(id, SizeOrZero(size))] else []
  }

  /**
   * `for bin_id, bin_size in zip(ids, sizes): if bin_id and bin_size.isdigit(): ...`
   * — pairs up to the shorter list, keeping those with a non-empty id and an
   * all-digit size.
   */
  function BinEntries(ids: seq<string>, sizes: seq<string>): seq<Entry>
    decreases |ids|
  {
    if ids == [] || sizes == [] then []
    else
      var n := if |ids| < |sizes| then |ids| else |sizes|;
      BinEntries(ids[..n - 1], sizes[..n - 1]) + KeptPair(ids[n - 1], sizes[n - 1])
  }

  /** `if bin_id and bin_size.isdigit()`: the entry one bin pair contributes. */
  function KeptPair(id: string, size: string): seq<Entry>
  {
    if id != "" && IsDigits(size) then [Entry(id, DecimalValue(size))] else []
  }

  function RowEntries(row: FileRow): seq<Entry>
  {
    SingleEntry(row.assemblyFastaFileId, row.assemblyFastaFileSize)
    + SingleEntry(row.rawReadsFileId, row.rawReadsFileSize)
    + BinEntries(SplitField(row.binsFastaFileId, ';'), SplitField(row.binsFastaFileSize, ';'))
  }

  /** Every row's entries, in table order. */
  function TableEntries(rows: seq<FileRow>): seq<Entry>
    decreases |rows|
  {
    if rows == [] then [] else TableEntries(rows[..|rows| - 1]) + RowEntries(rows[|rows| - 1])
  }

  function Ids(es: seq<Entry>): (r: seq<string>)
    ensures |r| == |es| && forall i :: 0 <= i < |es| ==> r[i] == es[i].id
  {
    seq(|es|, i requires 0 <= i < |es| => es[i].id)
  }

  function Sizes(es: seq<Entry>): (r: seq<int>)
    ensures |r| == |es| && forall i :: 0 <= i < |es| ==> r[i] == es[i].size
  {
    seq(|es|, i requires 0 <= i < |es| => es[i].size)
  }

  lemma ColumnsSnoc(es: seq<Entry>, e: Entry)
    ensures Ids(es + [e]) == Ids(es) + [e.id] && Sizes(es + [e]) == Sizes(es) + [e.size]
  {
  }

  /**
   * The inner loop of `extract_file_ids` (request-JGI-API.py:180-183): appends
   * the kept bin pairs to the two lists.
   */
  method AppendBins(fileIds: seq<string>, fileSizes: seq<int>, binsIds: seq<string>, binsSizes: seq<string>)
    returns (ids': seq<string>, sizes': seq<int>)
    ensures ids' == fileIds + Ids(BinEntries(binsIds, binsSizes))
    ensures sizes' == fileSizes + Sizes(BinEntries(binsIds, binsSizes))
  {
    ids', sizes' := fileIds, fileSizes;
    ghost var kept: seq<Entry> := [];
    var k := 0;
    assert binsIds[..0] == [] && BinEntries(binsIds[..0], binsSizes[..0]) == [];
    while k < |binsIds| && k < |binsSizes|
      invariant 0 <= k <= |binsIds| && k <= |binsSizes|
      invariant kept == BinEntries(binsIds[..k], binsSizes[..k])
      invariant ids' == fileIds + Ids(kept) && sizes' == fileSizes + Sizes(kept)
    {
      var binId, binSize := binsIds[k], binsSizes[k];
      BinEntriesSnoc(binsIds, binsSizes, k);
      if binId != "" && IsDigits(binSize) {
        ColumnsSnoc(kept, Entry(binId, DecimalValue(binSize)));
        ids' := ids' + [binId];
        sizes' := sizes' + [DecimalValue(binSize)];
        kept := kept + [Entry(binId, DecimalValue(binSize))];
      }
      k := k + 1;
    }
    BinEntriesZip(binsIds, binsSizes, k);
  }

  /** The body of the row loop of `extract_file_ids` (request-JGI-API.py:170-183). */
  method AppendRow(fileIds: seq<string>, fileSizes: seq<int>, row: FileRow)
    returns (ids': seq<string>, sizes': seq<int>)
    ensures ids' == fileIds + Ids(RowEntries(row))
    ensures sizes' == fileSizes + Sizes(RowEntries(row))
  {
    ids', sizes' := fileIds, fileSizes;
    var asm := SingleEntry(row.assemblyFastaFileId, row.assemblyFastaFileSize);
    var raw := SingleEntry(row.rawReadsFileId, row.rawReadsFileSize);
    if row.assemblyFastaFileId != "" {
      ids' := ids' + [row.assemblyFastaFileId];
      sizes' := sizes' + [if IsDigits(row.assemblyFastaFileSize) then DecimalValue(row.assemblyFastaFileSize) else 0];
    }
    assert ids' == fileIds + Ids(asm) && sizes' == fileSizes + Sizes(asm);
    if row.rawReadsFileId != "" {
      ids' := ids' + [row.rawReadsFileId];
      sizes' := sizes' + [if IsDigits(row.rawReadsFileSize) then DecimalValue(row.rawReadsFileSize) else 0];
    }
    assert ids' == fileIds + Ids(asm) + Ids(raw) && sizes' == fileSizes + Sizes(asm) + Sizes(raw);
    ColumnsAppend(asm, raw);
    Associative(fileIds, Ids(asm), Ids(raw));
    Associative(fileSizes, Sizes(asm), Sizes(raw));
    var binsIds := SplitField(row.binsFastaFileId, ';');
    var binsSizes := SplitField(row.binsFastaFileSize, ';');
    var bins := BinEntries(binsIds, binsSizes);
    ids', sizes' := AppendBins(ids', sizes', binsIds, binsSizes);
    assert RowEntries(row) == (asm + raw) + bins;
    ColumnsAppend(asm + raw, bins);
    Associative(fileIds, Ids(asm + raw), Ids(bins));
    Associative(fileSizes, Sizes(asm + raw), Sizes(bins));
  }

  lemma Associative<T>(a: seq<T>, b: seq<T>, c: seq<T>)
    ensures a + b + c == a + (b + c)
  {
  }

  /** `extract_file_ids`: the ids to request and, in step, their sizes. */
  method ExtractFileIds(rows: seq<FileRow>) returns (fileIds: seq<string>, fileSizes: seq<int>)
    ensures fileIds == Ids(TableEntries(rows)) && fileSizes == Sizes(TableEntries(rows))
    ensures |fileIds| == |fileSizes|
    ensures forall i :: 0 <= i < |fileSizes| ==> fileSizes[i] >= 0
  {
    fileIds, fileSizes := [], [];
    var r := 0;
    while r < |rows|
      invariant 0 <= r <= |rows|
      invariant fileIds == Ids(TableEntries(rows[..r])) && fileSizes == Sizes(TableEntries(rows[..r]))
    {
      fileIds, fileSizes := AppendRow(fileIds, fileSizes, rows[r]);
      TableEntriesSnoc(rows, r);
      ColumnsAppend(TableEntries(rows[..r]), RowEntries(rows[r]));
      r := r + 1;
    }
    assert rows[..r] == rows;
  }

  lemma ColumnsAppend(a: seq<Entry>, b: seq<Entry>)
    ensures Ids(a + b) == Ids(a) + Ids(b) && Sizes(a + b) == Sizes(a) + Sizes(b)
  {
  }

  lemma TableEntriesSnoc(rows: seq<FileRow>, r: nat)
    requires r < |rows|
    ensures TableEntries(rows[..r + 1]) == TableEntries(rows[..r]) + RowEntries(rows[r])
  {
    assert rows[..r + 1][..r] == rows[..r];
  }

  lemma BinEntriesSnoc(ids: seq<string>, sizes: seq<string>, k: nat)
    requires k < |ids| && k < |sizes|
    ensures BinEntries(ids[..k + 1], sizes[..k + 1])
         == BinEntries(ids[..k], sizes[..k])
            + KeptPair(ids[k], sizes[k])
  {
    assert ids[..k + 1][..k] == ids[..k];
    assert sizes[..k + 1][..k] == sizes[..k];
  }

  /** `zip` stops at the shorter list: only the first `k` pairs matter. */
  lemma BinEntriesZip(ids: seq<string>, sizes: seq<string>, k: nat)
    requires k <= |ids| && k <= |sizes| && (k == |ids| || k == |sizes|)
    ensures BinEntries(ids[..k], sizes[..k]) == BinEntries(ids, sizes)
  {
    if k > 0 {
      assert ids[..k][..k - 1] == ids[..k - 1];
      assert sizes[..k][..k - 1] == sizes[..k - 1];
      assert ids[..k][k - 1] == ids[k - 1] && sizes[..k][k - 1] == sizes[k - 1];
    } else {
      assert ids[..k] == [];
    }
  }

  // ------------------------------------------------------------- totals

  /** `sum(int(size) for size in parts if size.isdigit())`. */
  function SumDigits(parts: seq<string>): nat
    decreases |parts|
  {
    if parts == [] then 0 else SumDigits(parts[..|parts| - 1]) + SizeOrZero(parts[|parts| - 1])
  }

  /** One row's contribution to `total_file_size` (request-JGI-API.py:151-160). */
  function RowTotal(row: FileRow): nat
  {
    SizeOrZero(row.assemblyFastaFileSize) + SizeOrZero(row.rawReadsFileSize)
    + SumDigits(SplitField(row.binsFastaFileSize, ';'))
  }

  function TableTotal(rows: seq<FileRow>): nat
    decreases |rows|
  {
    if rows == [] then 0 else TableTotal(rows[..|rows| - 1]) + RowTotal(rows[|rows| - 1])
  }

  /** The byte total `calculate_total_file_size` computes before converting it to gigabytes. */
  method TotalFileSize(rows: seq<FileRow>) returns (totalFileSize: int)
    ensures totalFileSize == TableTotal(rows)
  {
    totalFileSize := 0;
    var r := 0;
    while r < |rows|
      invariant 0 <= r <= |rows|
      invariant totalFileSize == TableTotal(rows[..r])
    {
      var row := rows[r];
      if row.assemblyFastaFileSize != "" && IsDigits(row.assemblyFastaFileSize) {
        totalFileSize := totalFileSize + DecimalValue(row.assemblyFastaFileSize);
      }
      if row.rawReadsFileSize != "" && IsDigits(row.rawReadsFileSize) {
        totalFileSize := totalFileSize + DecimalValue(row.rawReadsFileSize);
      }
      var binsSizes := SplitField(row.binsFastaFileSize, ';');
      totalFileSize := totalFileSize + SumDigits(binsSizes);
      assert rows[..r + 1][..r] == rows[..r];
      r := r + 1;
    }
    assert rows[..r] == rows;
  }

  // --------------------------------------------------------- properties

  function EntriesSize(es: seq<Entry>): nat
    decreases |es|
  {
    if es == [] then 0 else EntriesSize(es[..|es| - 1]) + es[|es| - 1].size
  }

  lemma {:induction false} EntriesSizeAppend(a: seq<Entry>, b: seq<Entry>)
    ensures EntriesSize(a + b) == EntriesSize(a) + EntriesSize(b)
    decreases |b|
  {
    if b == [] {
      assert a + b == a;
    } else {
      assert (a + b)[..|a + b| - 1] == a + b[..|b| - 1];
      assert (a + b)[|a + b| - 1] == b[|b| - 1];
      EntriesSizeAppend(a, b[..|b| - 1]);
    }
  }

  lemma {:induction false} SumDigitsPrefix(parts: seq<string>, k: nat)
    requires k <= |parts|
    ensures SumDigits(parts[..k]) <= SumDigits(parts)
    decreases |parts|
  {
    if k < |parts| {
      assert parts[..|parts| - 1][..k] == parts[..k];
      SumDigitsPrefix(parts[..|parts| - 1], k);
    } else {
      assert parts[..k] == parts;
    }
  }

  lemma KeptPairSize(id: string, size: string)
    ensures EntriesSize(KeptPair(id, size)) <= SizeOrZero(size)
  {
    var kept := KeptPair(id, size);
    if kept != [] {
      assert kept[..0] == [];
    }
  }

  lemma SumDigitsSnoc(parts: seq<string>, n: nat)
    requires 0 < n <= |parts|
    ensures SumDigits(parts[..n]) == SumDigits(parts[..n - 1]) + SizeOrZero(parts[n - 1])
  {
    assert parts[..n][..n - 1] == parts[..n - 1] && parts[..n][n - 1] == parts[n - 1];
  }

  lemma {:induction false} BinEntriesWithinSum(ids: seq<string>, sizes: seq<string>)
    ensures EntriesSize(BinEntries(ids, sizes)) <= SumDigits(sizes)
    decreases |ids|
  {
    if ids != [] && sizes != [] {
      var n := if |ids| < |sizes| then |ids| else |sizes|;
      var init := BinEntries(ids[..n - 1], sizes[..n - 1]);
      var last := KeptPair(ids[n - 1], sizes[n - 1]);
      assert BinEntries(ids, sizes) == init + last;
      BinEntriesWithinSum(ids[..n - 1], sizes[..n - 1]);
      EntriesSizeAppend(init, last);
      KeptPairSize(ids[n - 1], sizes[n - 1]);
      SumDigitsPrefix(sizes, n);
      SumDigitsSnoc(sizes, n);
    }
  }

  /**
   * The size estimate never under-counts the download list: the sizes
   * `extract_file_ids` returns add up to at most the byte total (the total also
   * counts sizes whose id is empty and bins sizes beyond the shorter list).
   */
  lemma {:induction false} EstimateCoversDownloads(rows: seq<FileRow>)
    ensures EntriesSize(TableEntries(rows)) <= TableTotal(rows)
    decreases |rows|
  {
    if rows != [] {
      var row := rows[|rows| - 1];
      EstimateCoversDownloads(rows[..|rows| - 1]);
      var single := SingleEntry(row.assemblyFastaFileId, row.assemblyFastaFileSize)
                    + SingleEntry(row.rawReadsFileId, row.rawReadsFileSize);
      var bins := BinEntries(SplitField(row.binsFastaFileId, ';'), SplitField(row.binsFastaFileSize, ';'));
      EntriesSizeAppend(TableEntries(rows[..|rows| - 1]), RowEntries(row));
      EntriesSizeAppend(single, bins);
      EntriesSizeAppend(SingleEntry(row.assemblyFastaFileId, row.assemblyFastaFileSize),
                        SingleEntry(row.rawReadsFileId, row.rawReadsFileSize));
      BinEntriesWithinSum(SplitField(row.binsFastaFileId, ';'), SplitField(row.binsFastaFileSize, ';'));
    }
  }

  /** Pair `i` of the zip is kept, as entry `e`. */
  predicate KeptAt(ids: seq<string>, sizes: seq<string>, i: int, e: Entry)
  {
    0 <= i < |ids| && i < |sizes| && ids[i] == e.id && e.id != ""
    && IsDigits(sizes[i]) && e.size == DecimalValue(sizes[i])
  }

  /** Every kept entry comes from some zipped position. */
  lemma {:induction false} BinEntryWitness(ids: seq<string>, sizes: seq<string>, e: Entry) returns (i: int)
    requires e in BinEntries(ids, sizes)
    ensures KeptAt(ids, sizes, i, e)
    decreases |ids|
  {
    var n := if |ids| < |sizes| then |ids| else |sizes|;
    var ids', sizes' := ids[..n - 1], sizes[..n - 1];
    assert BinEntries(ids, sizes) == BinEntries(ids', sizes') + KeptPair(ids[n - 1], sizes[n - 1]);
    if e in BinEntries(ids', sizes') {
      i := BinEntryWitness(ids', sizes', e);
    } else {
      i := n - 1;
    }
  }

  /** Every position that passes the guard is kept. */
  lemma {:induction false} BinEntryKept(ids: seq<string>, sizes: seq<string>, i: int, e: Entry)
    requires KeptAt(ids, sizes, i, e)
    ensures e in BinEntries(ids, sizes)
    decreases |ids|
  {
    var n := if |ids| < |sizes| then |ids| else |sizes|;
    var ids', sizes' := ids[..n - 1], sizes[..n - 1];
    assert BinEntries(ids, sizes) == BinEntries(ids', sizes') + KeptPair(ids[n - 1], sizes[n - 1]);
    if i < n - 1 {
      assert KeptAt(ids', sizes', i, e);
      BinEntryKept(ids', sizes', i, e);
    } else {
      assert KeptPair(ids[n - 1], sizes[n - 1]) == [e];
    }
  }

  /**
   * A bin pair is requested exactly when its id is non-empty and its size is
   * all digits, within the length of the shorter list (request-JGI-API.py:180-183).
   */
  lemma BinEntriesExactly(ids: seq<string>, sizes: seq<string>, e: Entry)
    ensures e in BinEntries(ids, sizes) <==> exists i :: KeptAt(ids, sizes, i, e)
  {
    if e in BinEntries(ids, sizes) {
      var i := BinEntryWitness(ids, sizes, e);
    }
    if exists i :: KeptAt(ids, sizes, i, e) {
      var i :| KeptAt(ids, sizes, i, e);
      BinEntryKept(ids, sizes, i, e);
    }
  }

  /** A row whose cells are all the placeholder "N/A" still yields the
      assembly and raw-reads ids "N/A", each with size 0. */
  lemma PlaceholderRow()
    ensures RowEntries(FileRow("N/A", "N/A", "N/A", "N/A", "N/A", "N/A")) == [Entry("N/A", 0), Entry("N/A", 0)]
  {
    SplitPlain("N/A", ';');
    assert !IsDigits("N/A") by { assert !IsAsciiDigit("N/A"[0]); }
  }
}

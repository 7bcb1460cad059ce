/**
 * The two tables `main` writes (request-JGI-API.py:213-250): the file table,
 * one row per taxon with the thirteen file fields of `parse_json_data`, and
 * the metadata table, one row per taxon with the JAMO id, the ten attribution
 * fields, the bin count, the coordinates and the external flag. A taxon whose
 * search result has no organisms gets a row of "N/A" placeholders.
 *
 * The file table is read back by `extract_file_ids` and
 * `calculate_total_file_size` through their column names; `ReadRow` models
 * that lookup, and the round-trip lemmas say what those readers recover from a
 * row written here.
 */
module Rows {
  import opened Text
  import opened Document
  import opened Extractor
  import opened Attribution
  import opened Aggregator

  /** The file table's header (request-JGI-API.py:215-220). */
  const OutputHeaders: seq<string> := [
    "taxon_oid", "jamo_id", "assembly_fasta_filename", "assembly_fasta_file_id",
    "assembly_fasta_file_size", "assembly_fasta_file_status", "raw_reads_filename",
    "raw_reads_file_id", "raw_reads_file_size", "raw_reads_file_status", "bins_fasta_filename",
    "bins_fasta_file_id", "bins_fasta_file_size", "bins_fasta_file_status"]

  /** The metadata table's header (request-JGI-API.py:223-227). */
  const MetaHeaders: seq<string> := [
    "taxon_oid", "JAMO id", "agg_id", "kingdom", "label", "country", "institution",
    "its_sp_id", "its_ap_id", "PI_name", "Email", "analysis_project_name", "Bin_count",
    "Latitude", "Longitude", "External"]

  /** `data and 'organisms' in data and data['organisms']`. */
  predicate HasOrganisms(doc: SearchResult)
  {
    doc.organisms.Some? && doc.organisms.value != []
  }

  /** `[taxon_oid] + ['N/A'] * n`. */
  function Placeholder(taxon: string, n: nat): (row: seq<string>)
    ensures |row| == n + 1 && row[0] == taxon
    ensures forall i :: 1 <= i < |row| ==> row[i] == NotAvailable
  {
    [taxon] + seq(n, i => NotAvailable)
  }

  /** `list(parsed_data[:-4])` as the TSV writer renders it: the first thirteen fields. */
  function FileCells(p: ParsedRecord): seq<string>
  {
    [p.jamoId,
     p.assemblyFastaFilename, p.assemblyFastaFileId, IntToDecimal(p.assemblyFastaFileSize), p.assemblyFastaFileStatus,
     p.rawReadsFilename, p.rawReadsFileId, IntToDecimal(p.rawReadsFileSize), p.rawReadsFileStatus,
     p.binsFastaFilename, p.binsFastaFileId, p.binsFastaFileSize, p.binsFastaFileStatus]
  }

  /** The file-table row for one taxon (request-JGI-API.py:242 and 247). */
  function OutputRow(taxon: string, doc: SearchResult, opts: Options): (row: seq<string>)
    ensures |row| == |OutputHeaders|
    ensures row[0] == taxon
    ensures !HasOrganisms(doc) ==> forall i :: 1 <= i < |row| ==> row[i] == NotAvailable
  {
    if HasOrganisms(doc) then [taxon] + FileCells(ParseSpec(doc, opts))
    else Placeholder(taxon, 13)
  }

  /**
   * The metadata-table row for a taxon with organisms (request-JGI-API.py:244):
   * the taxon, the JAMO id, the ten attribution values in dict order, then
   * `parsed_data[-4]`, `[-2]`, `[-1]`, `[-3]`, that is the bin count, the
   * latitude, the longitude and the external flag.
   */
  function MetaCells(taxon: string, doc: SearchResult, opts: Options): seq<string>
  {
    var p := ParseSpec(doc, opts);
    [taxon, p.jamoId] + Values(ExtractAdditionalMetadata(OrganismsOf(doc)))
    + [NatToDecimal(p.binCount), p.latitude, p.longitude, p.externallySequenced]
  }

  /** The metadata placeholder as written at request-JGI-API.py:249: the taxon and sixteen "N/A". */
  function MetaPlaceholderAsWritten(taxon: string): (row: seq<string>)
    ensures |row| == 17 && row[0] == taxon
  {
    Placeholder(taxon, 12) + seq(4, i => NotAvailable)
  }

  /** The placeholder row is one cell wider than the header it sits under. */
  lemma {:induction false} MetaPlaceholderTooWide(taxon: string)
    ensures |MetaPlaceholderAsWritten(taxon)| == |MetaHeaders| + 1
  {
    assert |Placeholder(taxon, 12)| == 13;
  }

  /** The metadata placeholder as intended: the taxon and one "N/A" per remaining header. */
  function MetaPlaceholder(taxon: string): (row: seq<string>)
    ensures |row| == |MetaHeaders| && row[0] == taxon
    ensures forall i :: 1 <= i < |row| ==> row[i] == NotAvailable
  {
    Placeholder(taxon, |MetaHeaders| - 1)
  }

  /** The metadata-table row for one taxon, with the corrected placeholder. */
  function MetaRow(taxon: string, doc: SearchResult, opts: Options): (row: seq<string>)
    ensures |row| == |MetaHeaders|
    ensures row[0] == taxon
    ensures !HasOrganisms(doc) ==> forall i :: 1 <= i < |row| ==> row[i] == NotAvailable
  {
    if HasOrganisms(doc) then MetaCells(taxon, doc, opts) else MetaPlaceholder(taxon)
  }

  // ------------------------------------------------------------ reading back

  /**
   * `row[name]` of `csv.DictReader` under distinct headers: the cell under the
   * header called `name`. (With a repeated header DictReader would keep the
   * last such column; the lemmas below all assume distinct headers.)
   */
  function Cell(headers: seq<string>, row: seq<string>, name: string): string
    decreases |headers|
  {
    if headers == [] then ""
    else if headers[0] == name then (if row != [] then row[0] else "")
    else Cell(headers[1..], if row != [] then row[1..] else [], name)
  }

  /** The six cells the file-table readers use. */
  function ReadRow(headers: seq<string>, row: seq<string>): FileRow
  {
    FileRow(
      Cell(headers, row, "assembly_fasta_file_id"), Cell(headers, row, "assembly_fasta_file_size"),
      Cell(headers, row, "raw_reads_file_id"), Cell(headers, row, "raw_reads_file_size"),
      Cell(headers, row, "bins_fasta_file_id"), Cell(headers, row, "bins_fasta_file_size"))
  }

  ghost predicate Distinct(names: seq<string>)
  {
    forall i, j :: 0 <= i < j < |names| ==> names[i] != names[j]
  }

  /** With distinct headers, the cell under header `k` is column `k`. */
  lemma {:induction false} CellAt(headers: seq<string>, row: seq<string>, k: nat)
    requires Distinct(headers)
    requires k < |headers| <= |row|
    ensures Cell(headers, row, headers[k]) == row[k]
    decreases k
  {
    if k > 0 {
      assert headers[0] != headers[k];
      assert headers[1..][k - 1] == headers[k];
      CellAt(headers[1..], row[1..], k - 1);
    }
  }

  lemma OutputHeadersDistinct()
    ensures Distinct(OutputHeaders)
  {
    forall i, j | 0 <= i < j < |OutputHeaders|
      ensures OutputHeaders[i] != OutputHeaders[j]
    {
      var a, b := OutputHeaders[i], OutputHeaders[j];
      assert |a| != |b| || a[0] != b[0];
    }
  }

  lemma MetaHeadersDistinct()
    ensures Distinct(MetaHeaders)
  {
    forall i, j | 0 <= i < j < |MetaHeaders|
      ensures MetaHeaders[i] != MetaHeaders[j]
    {
      var a, b := MetaHeaders[i], MetaHeaders[j];
      assert |a| != |b| || a[0] != b[0] || a[4] != b[4];
    }
  }

  /** Under the file table's header the readers take columns 3, 4, 7, 8, 11 and 12. */
  lemma ReadOutputRow(row: seq<string>)
    requires |row| == |OutputHeaders|
    ensures ReadRow(OutputHeaders, row) == FileRow(row[3], row[4], row[7], row[8], row[11], row[12])
  {
    OutputHeadersDistinct();
    CellAt(OutputHeaders, row, 3);
    CellAt(OutputHeaders, row, 4);
    CellAt(OutputHeaders, row, 7);
    CellAt(OutputHeaders, row, 8);
    CellAt(OutputHeaders, row, 11);
    CellAt(OutputHeaders, row, 12);
  }

  /** What the reader makes of the text `str(n)`: `n` when it is all digits, else 0. */
  function ReadBack(n: int): nat
  {
    if n >= 0 then n else 0
  }

  lemma ReadBackDecimal(n: int)
    ensures IsDigits(IntToDecimal(n)) <==> n >= 0
    ensures SizeOrZero(IntToDecimal(n)) == ReadBack(n)
  {
    if n >= 0 {
      DecimalRoundTrip(n);
    } else {
      assert !IsAsciiDigit(IntToDecimal(n)[0]);
    }
  }

  /** The request a written singular slot yields: one entry when its id is non-empty. */
  function SlotEntry(id: string, size: int): (r: seq<Entry>)
    ensures |r| <= 1
    ensures r != [] <==> id != ""
  {
    if id != "" then [Entry(id, ReadBack(size))] else []
  }

  /** The requests the written bins yield: pairs with a non-empty id and a non-negative size. */
  function WrittenBins(ids: seq<string>, sizes: seq<int>): seq<Entry>
    decreases |ids|
  {
    if ids == [] || sizes == [] then []
    else
      var n := if |ids| < |sizes| then |ids| else |sizes|;
      WrittenBins(ids[..n - 1], sizes[..n - 1])
      + if ids[n - 1] != "" && sizes[n - 1] >= 0 then [Entry(ids[n - 1], sizes[n - 1])] else []
  }

  lemma BinStepOfDecimal(id: string, size: int)
    ensures KeptPair(id, IntToDecimal(size)) == if id != "" && size >= 0 then [Entry(id, size)] else []
  {
    ReadBackDecimal(size);
  }

  lemma {:induction false} BinEntriesOfDecimals(ids: seq<string>, sizes: seq<int>)
    ensures BinEntries(ids, Decimals(sizes)) == WrittenBins(ids, sizes)
    decreases |ids|
  {
    if ids != [] && sizes != [] {
      var n := if |ids| < |sizes| then |ids| else |sizes|;
      var ds := Decimals(sizes);
      assert ds[..n - 1] == Decimals(sizes[..n - 1]);
      assert ds[n - 1] == IntToDecimal(sizes[n - 1]);
      assert BinEntries(ids, ds) == BinEntries(ids[..n - 1], ds[..n - 1]) + KeptPair(ids[n - 1], ds[n - 1]);
      assert WrittenBins(ids, sizes) == WrittenBins(ids[..n - 1], sizes[..n - 1])
        + if ids[n - 1] != "" && sizes[n - 1] >= 0 then [Entry(ids[n - 1], sizes[n - 1])] else [];
      BinEntriesOfDecimals(ids[..n - 1], sizes[..n - 1]);
      BinStepOfDecimal(ids[n - 1], sizes[n - 1]);
    }
  }

  lemma DecimalsPlain(sizes: seq<int>)
    ensures forall i :: 0 <= i < |Decimals(sizes)| ==> ';' !in Decimals(sizes)[i]
    ensures Decimals(sizes) != [""]
  {
    forall i | 0 <= i < |Decimals(sizes)|
      ensures ';' !in Decimals(sizes)[i]
    {
      var s := Decimals(sizes)[i];
      forall c | c in s ensures c != ';' {
        var k :| 0 <= k < |s| && s[k] == c;
        if sizes[i] < 0 && k > 0 {
          assert s[1..][k - 1] == c;
        }
      }
    }
    if |sizes| == 1 {
      assert |Decimals(sizes)[0]| > 0;
    }
  }

  /** Splitting the joined bin ids and sizes gives back what bins the writer recorded. */
  lemma {:induction false} BinsReadBack(ids: seq<string>, sizes: seq<int>)
    requires forall i :: 0 <= i < |ids| ==> ';' !in ids[i]
    ensures BinEntries(SplitField(Join(ids, ';'), ';'), SplitField(Join(Decimals(sizes), ';'), ';'))
      == WrittenBins(ids, sizes)
  {
    DecimalsPlain(sizes);
    SplitFieldJoin(Decimals(sizes), ';');
    if ids == [""] {
      assert Join(ids, ';') == "";
      if sizes != [] {
        assert WrittenBins(ids, sizes) == WrittenBins([], sizes[..0]) + [];
      }
    } else {
      SplitFieldJoin(ids, ';');
    }
    BinEntriesOfDecimals(ids, sizes);
  }

  /**
   * Round trip through the file table: the requests `extract_file_ids` reads
   * from a written row are the assembly and raw-reads files when their ids are
   * non-empty, then every bin with a non-empty id, each with the size the
   * extractor recorded — provided no bin id holds the separator ';'.
   */
  lemma WrittenRowReadsBack(taxon: string, doc: SearchResult, opts: Options)
    requires HasOrganisms(doc)
    requires forall i :: 0 <= i < |Resolve(doc, opts).binIds| ==> ';' !in Resolve(doc, opts).binIds[i]
    ensures var s := Resolve(doc, opts);
      RowEntries(ReadRow(OutputHeaders, OutputRow(taxon, doc, opts)))
      == SlotEntry(s.assembly.fileId, s.assembly.fileSize)
         + SlotEntry(s.rawReads.fileId, s.rawReads.fileSize)
         + WrittenBins(s.binIds, s.binSizes)
  {
    var s := Resolve(doc, opts);
    var fr := ReadRow(OutputHeaders, OutputRow(taxon, doc, opts));
    WrittenFileRow(taxon, doc, opts);
    SlotReadBack(s.assembly.fileId, s.assembly.fileSize);
    SlotReadBack(s.rawReads.fileId, s.rawReads.fileSize);
    BinsReadBack(s.binIds, s.binSizes);
    assert RowEntries(fr)
      == SingleEntry(fr.assemblyFastaFileId, fr.assemblyFastaFileSize)
         + SingleEntry(fr.rawReadsFileId, fr.rawReadsFileSize)
         + BinEntries(SplitField(fr.binsFastaFileId, ';'), SplitField(fr.binsFastaFileSize, ';'));
  }

  /** The six cells the readers take from a written row with organisms. */
  lemma WrittenFileRow(taxon: string, doc: SearchResult, opts: Options)
    requires HasOrganisms(doc)
    ensures var s := Resolve(doc, opts);
      ReadRow(OutputHeaders, OutputRow(taxon, doc, opts))
      == FileRow(s.assembly.fileId, IntToDecimal(s.assembly.fileSize),
                 s.rawReads.fileId, IntToDecimal(s.rawReads.fileSize),
                 Join(s.binIds, ';'), Join(Decimals(s.binSizes), ';'))
  {
    var row := OutputRow(taxon, doc, opts);
    assert row == [taxon] + FileCells(ParseSpec(doc, opts));
    ReadOutputRow(row);
  }

  lemma SlotReadBack(id: string, size: int)
    ensures SingleEntry(id, IntToDecimal(size)) == SlotEntry(id, size)
  {
    ReadBackDecimal(size);
  }

  /** The sum of the non-negative sizes: the bytes `calculate_total_file_size` counts for a bins cell. */
  function NonNegativeTotal(sizes: seq<int>): nat
  {
    if sizes == [] then 0
    else NonNegativeTotal(sizes[..|sizes| - 1]) + ReadBack(sizes[|sizes| - 1])
  }

  lemma {:induction false} SumDigitsOfDecimals(sizes: seq<int>)
    ensures SumDigits(Decimals(sizes)) == NonNegativeTotal(sizes)
  {
    if sizes != [] {
      assert Decimals(sizes)[..|sizes| - 1] == Decimals(sizes[..|sizes| - 1]);
      SumDigitsOfDecimals(sizes[..|sizes| - 1]);
      ReadBackDecimal(sizes[|sizes| - 1]);
    }
  }

  /**
   * Round trip of the size estimate: a written row contributes the assembly
   * size, the raw-reads size and every bin size, whether or not the ids are
   * present.
   */
  lemma WrittenRowTotal(taxon: string, doc: SearchResult, opts: Options)
    requires HasOrganisms(doc)
    ensures var s := Resolve(doc, opts);
      RowTotal(ReadRow(OutputHeaders, OutputRow(taxon, doc, opts)))
      == ReadBack(s.assembly.fileSize) + ReadBack(s.rawReads.fileSize) + NonNegativeTotal(s.binSizes)
  {
    var s := Resolve(doc, opts);
    WrittenFileRow(taxon, doc, opts);
    ReadBackDecimal(s.assembly.fileSize);
    ReadBackDecimal(s.rawReads.fileSize);
    DecimalsPlain(s.binSizes);
    SplitFieldJoin(Decimals(s.binSizes), ';');
    SumDigitsOfDecimals(s.binSizes);
  }

  /** A placeholder row in the file table is read as two requests for the id "N/A". */
  lemma PlaceholderReadsBack(taxon: string, doc: SearchResult, opts: Options)
    requires !HasOrganisms(doc)
    ensures RowEntries(ReadRow(OutputHeaders, OutputRow(taxon, doc, opts))) == [Entry("N/A", 0), Entry("N/A", 0)]
  {
    ReadOutputRow(OutputRow(taxon, doc, opts));
    PlaceholderRow();
  }

  /** Under the metadata header, the cell named by header `k` is column `k`. */
  lemma MetaCellAt(row: seq<string>, k: nat)
    requires |row| == |MetaHeaders| && k < |MetaHeaders|
    ensures Cell(MetaHeaders, row, MetaHeaders[k]) == row[k]
  {
    MetaHeadersDistinct();
    CellAt(MetaHeaders, row, k);
  }

  /** The metadata header is the taxon and JAMO id, the ten attribution keys in dict order, then four more. */
  lemma MetaHeadersLayout()
    ensures MetaHeaders == ["taxon_oid", "JAMO id"] + MetadataKeys + ["Bin_count", "Latitude", "Longitude", "External"]
  {
  }

  /** The cells under the two headers a metadata row takes from the record's JAMO id and bin count. */
  lemma MetaCountCells(row: seq<string>)
    requires |row| == |MetaHeaders|
    ensures Cell(MetaHeaders, row, "JAMO id") == row[1]
    ensures Cell(MetaHeaders, row, "Bin_count") == row[12]
  {
    assert MetaHeaders[1] == "JAMO id";
    assert MetaHeaders[12] == "Bin_count";
    MetaCellAt(row, 1);
    MetaCellAt(row, 12);
  }

  /** The cells under the three headers a metadata row takes from the record's coordinates and external flag. */
  lemma MetaSiteCells(row: seq<string>)
    requires |row| == |MetaHeaders|
    ensures Cell(MetaHeaders, row, "Latitude") == row[13]
    ensures Cell(MetaHeaders, row, "Longitude") == row[14]
    ensures Cell(MetaHeaders, row, "External") == row[15]
  {
    assert MetaHeaders[13] == "Latitude";
    assert MetaHeaders[14] == "Longitude";
    assert MetaHeaders[15] == "External";
    MetaCellAt(row, 13);
    MetaCellAt(row, 14);
    MetaCellAt(row, 15);
  }

  /** In a row laid out as the metadata writer lays it out, the five record cells sit under their headers. */
  lemma MetaLayoutCells(taxon: string, jamoId: string, vs: seq<string>, bins: string, lat: string, lon: string, ext: string)
    requires |vs| == 10
    ensures var row := [taxon, jamoId] + vs + [bins, lat, lon, ext];
      && Cell(MetaHeaders, row, "JAMO id") == jamoId
      && Cell(MetaHeaders, row, "Bin_count") == bins
      && Cell(MetaHeaders, row, "Latitude") == lat
      && Cell(MetaHeaders, row, "Longitude") == lon
      && Cell(MetaHeaders, row, "External") == ext
  {
    var row := [taxon, jamoId] + vs + [bins, lat, lon, ext];
    assert row[1] == jamoId && row[12] == bins && row[13] == lat && row[14] == lon && row[15] == ext;
    MetaCountCells(row);
    MetaSiteCells(row);
  }

  lemma MetaRowCells(taxon: string, doc: SearchResult, opts: Options)
    requires HasOrganisms(doc)
    ensures var p := ParseSpec(doc, opts);
      MetaRow(taxon, doc, opts) == [taxon, p.jamoId] + Values(ExtractAdditionalMetadata(OrganismsOf(doc)))
        + [NatToDecimal(p.binCount), p.latitude, p.longitude, p.externallySequenced]
  {
  }

  /** The ten attribution values of a metadata row sit under their own keys. */
  lemma MetaAttributeColumns(taxon: string, doc: SearchResult, opts: Options)
    requires HasOrganisms(doc)
    ensures var row, meta := MetaRow(taxon, doc, opts), ExtractAdditionalMetadata(OrganismsOf(doc));
      forall k :: 0 <= k < |meta| ==> MetaHeaders[2 + k] == Keys(meta)[k] && row[2 + k] == Values(meta)[k]
  {
    var p := ParseSpec(doc, opts);
    var meta := ExtractAdditionalMetadata(OrganismsOf(doc));
    var row := MetaRow(taxon, doc, opts);
    var tail := [NatToDecimal(p.binCount), p.latitude, p.longitude, p.externallySequenced];
    MetaRowCells(taxon, doc, opts);
    MetaHeadersLayout();
    forall k | 0 <= k < |meta|
      ensures MetaHeaders[2 + k] == Keys(meta)[k] && row[2 + k] == Values(meta)[k]
    {
      assert (["taxon_oid", "JAMO id"] + MetadataKeys + ["Bin_count", "Latitude", "Longitude", "External"])[2 + k] == MetadataKeys[k];
      assert ([taxon, p.jamoId] + Values(meta) + tail)[2 + k] == Values(meta)[k];
    }
  }

  /**
   * The JAMO id, bin count, coordinates and external flag of a metadata row sit
   * under their headers, although the record fields are taken out of order.
   */
  lemma MetaRecordColumns(taxon: string, doc: SearchResult, opts: Options)
    requires HasOrganisms(doc)
    ensures var row, p := MetaRow(taxon, doc, opts), ParseSpec(doc, opts);
      && Cell(MetaHeaders, row, "JAMO id") == p.jamoId
      && Cell(MetaHeaders, row, "Bin_count") == NatToDecimal(p.binCount)
      && Cell(MetaHeaders, row, "Latitude") == p.latitude
      && Cell(MetaHeaders, row, "Longitude") == p.longitude
      && Cell(MetaHeaders, row, "External") == p.externallySequenced
  {
    var p := ParseSpec(doc, opts);
    MetaRowCells(taxon, doc, opts);
    MetaLayoutCells(taxon, p.jamoId, Values(ExtractAdditionalMetadata(OrganismsOf(doc))),
      NatToDecimal(p.binCount), p.latitude, p.longitude, p.externallySequenced);
  }
}

/**
 * The record extractor `parse_json_data` (request-JGI-API.py:18-90): one pass
 * over the organisms of a search result and over each organism's files,
 * updating the assembly, raw-reads and bins fields, the external-sequencing
 * flag, the JAMO id and the sampling coordinates.
 *
 * `VisitTopHit` and `VisitFile` are the loop bodies as functions on a `State`
 * holding the sixteen local variables; `Resolve` folds them over the document
 * and is the specification of the imperative `ParseJsonData`. The lemmas below
 * characterise the fold independently: last match wins, sizes are sticky,
 * bins are exactly the matching files, coordinates come from the last file
 * with a complete pair.
 */
module Extractor {
  import opened Wrappers
  import opened Text
  import opened Document

  const IdNotFound := "id-not-found"

  /** The three switches `include_bins`, `include_assemblies`, `include_reads`. */
  datatype Options = Options(includeBins: bool, includeAssemblies: bool, includeReads: bool)

  const AllCategories := Options(true, true, true)

  /** The singular name/id/size/status fields of the assembly or raw-reads category. */
  datatype Slot = Slot(fileName: string, fileId: string, fileSize: int, fileStatus: string)

  const EmptySlot := Slot("", "", 0, "")

  /** The extractor's local variables. */
  datatype State = State(
    jamoId: string,
    assembly: Slot,
    rawReads: Slot,
    binNames: seq<string>,
    binIds: seq<string>,
    binSizes: seq<int>,
    binStatuses: seq<string>,
    externallySequenced: string,
    latitude: string,
    longitude: string)

  const Initial := State(IdNotFound, EmptySlot, EmptySlot, [], [], [], [], "no", NotAvailable, NotAvailable)

  /** The tuple `parse_json_data` returns, bins lists joined with ';'. */
  datatype ParsedRecord = ParsedRecord(
    jamoId: string,
    assemblyFastaFilename: string,
    assemblyFastaFileId: string,
    assemblyFastaFileSize: int,
    assemblyFastaFileStatus: string,
    rawReadsFilename: string,
    rawReadsFileId: string,
    rawReadsFileSize: int,
    rawReadsFileStatus: string,
    binsFastaFilename: string,
    binsFastaFileId: string,
    binsFastaFileSize: string,
    binsFastaFileStatus: string,
    binCount: nat,
    externallySequenced: string,
    latitude: string,
    longitude: string)

  // --------------------------------------------------------- file categories

  predicate IsAssemblyFile(f: FileEntry)
  {
    Contains(FileName(f), "scaffolds.fasta")
  }

  predicate IsRawReadsFile(f: FileEntry)
  {
    EndsWith(FileName(f), "fastq.gz") && "Raw Data" in DisplayLocation(f)
  }

  predicate IsBinsFile(f: FileEntry)
  {
    ContentType(f) == Some("Binning Data") && EndsWith(FileName(f), ".tar.gz")
  }

  /** The two categories with singular fields. */
  datatype Kind = Assembly | RawReads

  predicate Selects(kind: Kind, opts: Options, f: FileEntry)
  {
    match kind
    case Assembly => opts.includeAssemblies && IsAssemblyFile(f)
    case RawReads => opts.includeReads && IsRawReadsFile(f)
  }

  predicate SelectsBin(opts: Options, f: FileEntry)
  {
    opts.includeBins && IsBinsFile(f)
  }

  function SlotOf(s: State, kind: Kind): Slot
  {
    match kind
    case Assembly => s.assembly
    case RawReads => s.rawReads
  }

  predicate IsMetagenome(t: TopHit)
  {
    Lower(ProgramName(t)) == "metagenome"
  }

  // ------------------------------------------------------------ loop bodies

  /** The top-hit part of the outer loop body (request-JGI-API.py:38-43). */
  function VisitTopHit(s: State, o: Organism): State
  {
    if HasTruthyHit(o) then
      var t := o.topHit.value;
      s.(jamoId := t.id.GetOr(IdNotFound),
         externallySequenced := if IsMetagenome(t) then "yes" else s.externallySequenced)
    else s
  }

  /** A matching file overwrites a slot; its size only when positive. */
  function Refill(slot: Slot, f: FileEntry): Slot
  {
    Slot(FileName(f), FileId(f), if FileSize(f) > 0 then FileSize(f) else slot.fileSize, FileStatus(f))
  }

  /** The inner loop body (request-JGI-API.py:46-82). */
  function VisitFile(s: State, f: FileEntry, opts: Options): State
  {
    var assembly := if Selects(Assembly, opts, f) then Refill(s.assembly, f) else s.assembly;
    var rawReads := if Selects(RawReads, opts, f) then Refill(s.rawReads, f) else s.rawReads;
    var bin := SelectsBin(opts, f);
    var sow, gold := SowSegment(f), GoldData(f);
    var lat := if IsComplete(sow) then sow.latitude.value else s.latitude;
    var lon := if IsComplete(sow) then sow.longitude.value else s.longitude;
    State(
      s.jamoId,
      assembly,
      rawReads,
      if bin then s.binNames + [FileName(f)] else s.binNames,
      if bin then s.binIds + [FileId(f)] else s.binIds,
      if bin then s.binSizes + [if FileSize(f) > 0 then FileSize(f) else 0] else s.binSizes,
      if bin then s.binStatuses + [FileStatus(f)] else s.binStatuses,
      s.externallySequenced,
      if IsComplete(gold) then gold.latitude.value else lat,
      if IsComplete(gold) then gold.longitude.value else lon)
  }

  function VisitFiles(s: State, files: seq<FileEntry>, opts: Options): State
    decreases |files|
  {
    if files == [] then s
    else VisitFile(VisitFiles(s, files[..|files| - 1], opts), files[|files| - 1], opts)
  }

  function VisitOrganism(s: State, o: Organism, opts: Options): State
  {
    VisitFiles(VisitTopHit(s, o), FilesOf(o), opts)
  }

  function VisitOrganisms(s: State, orgs: seq<Organism>, opts: Options): State
    decreases |orgs|
  {
    if orgs == [] then s
    else VisitOrganism(VisitOrganisms(s, orgs[..|orgs| - 1], opts), orgs[|orgs| - 1], opts)
  }

  /** The local variables once both loops have finished. */
  function Resolve(doc: SearchResult, opts: Options): State
  {
    VisitOrganisms(Initial, OrganismsOf(doc), opts)
  }

  function Decimals(ns: seq<int>): (r: seq<string>)
    ensures |r| == |ns|
    ensures forall i :: 0 <= i < |ns| ==> r[i] == IntToDecimal(ns[i])
  {
    seq(|ns|, i requires 0 <= i < |ns| => IntToDecimal(ns[i]))
  }

  /** The returned tuple (request-JGI-API.py:84-90). */
  function Finish(s: State, opts: Options): ParsedRecord
  {
    ParsedRecord(
      s.jamoId,
      s.assembly.fileName, s.assembly.fileId, s.assembly.fileSize, s.assembly.fileStatus,
      s.rawReads.fileName, s.rawReads.fileId, s.rawReads.fileSize, s.rawReads.fileStatus,
      Join(s.binNames, ';'), Join(s.binIds, ';'), Join(Decimals(s.binSizes), ';'), Join(s.binStatuses, ';'),
      if opts.includeBins then |s.binNames| else 0,
      s.externallySequenced, s.latitude, s.longitude)
  }

  function ParseSpec(doc: SearchResult, opts: Options): ParsedRecord
  {
    Finish(Resolve(doc, opts), opts)
  }

  // ----------------------------------------------------------- the program

  /**
   * The inner loop body (request-JGI-API.py:46-82) on the extractor's locals,
   * held together in one `State`.
   */
  method ParseFile(s: State, file: FileEntry, opts: Options) returns (t: State)
    ensures t == VisitFile(s, file, opts)
  {
    var fileName := FileName(file);
    var fileId := FileId(file);
    var fileSize := FileSize(file);
    var fileStatus := FileStatus(file);

    var assembly := s.assembly;
    if opts.includeAssemblies && Contains(fileName, "scaffolds.fasta") {
      assembly := Slot(fileName, fileId, if fileSize > 0 then fileSize else assembly.fileSize, fileStatus);
    }

    var rawReads := s.rawReads;
    if opts.includeReads && EndsWith(fileName, "fastq.gz") && "Raw Data" in DisplayLocation(file) {
      rawReads := Slot(fileName, fileId, if fileSize > 0 then fileSize else rawReads.fileSize, fileStatus);
    }

    var binNames, binIds, binSizes, binStatuses := s.binNames, s.binIds, s.binSizes, s.binStatuses;
    if opts.includeBins && ContentType(file) == Some("Binning Data") && EndsWith(fileName, ".tar.gz") {
      binNames := binNames + [fileName];
      binIds := binIds + [fileId];
      binSizes := binSizes + [if fileSize > 0 then fileSize else 0];
      binStatuses := binStatuses + [fileStatus];
    }

    var latitude, longitude := s.latitude, s.longitude;
    var sowSegment := SowSegment(file);
    var goldData := GoldData(file);
    if sowSegment.latitude.Some? && sowSegment.longitude.Some? {
      latitude := sowSegment.latitude.value;
      longitude := sowSegment.longitude.value;
    }
    if goldData.latitude.Some? && goldData.longitude.Some? {
      latitude := goldData.latitude.value;
      longitude := goldData.longitude.value;
    }

    t := State(s.jamoId, assembly, rawReads, binNames, binIds, binSizes, binStatuses,
               s.externallySequenced, latitude, longitude);
  }

  /**
   * `parse_json_data(data, include_bins, include_assemblies, include_reads)`:
   * the sixteen locals of request-JGI-API.py:19-34 are the fields of `s`.
   */
  method ParseJsonData(data: SearchResult, opts: Options) returns (r: ParsedRecord)
    ensures r == ParseSpec(data, opts)
  {
    var s := Initial;
    var organisms := OrganismsOf(data);
    var i := 0;
    while i < |organisms|
      invariant 0 <= i <= |organisms|
      invariant s == VisitOrganisms(Initial, organisms[..i], opts)
    {
      var organism := organisms[i];
      ghost var entry := s;
      if organism.topHit.Some? && IsTruthy(organism.topHit.value) {
        var topHit := organism.topHit.value;
        s := s.(jamoId := topHit.id.GetOr(IdNotFound));
        if Lower(ProgramName(topHit)) == "metagenome" {
          s := s.(externallySequenced := "yes");
        }
      }

      assert s == VisitTopHit(entry, organism);
      ghost var before := s;
      var files := FilesOf(organism);
      var j := 0;
      while j < |files|
        invariant 0 <= j <= |files|
        invariant s == VisitFiles(before, files[..j], opts)
      {
        s := ParseFile(s, files[j], opts);
        assert files[..j + 1][..j] == files[..j];
        j := j + 1;
      }
      assert files[..j] == files;
      assert s == VisitOrganism(entry, organism, opts);
      assert organisms[..i + 1][..i] == organisms[..i];
      i := i + 1;
    }
    assert organisms[..i] == organisms;
    assert s == Resolve(data, opts);

    var binCount := if opts.includeBins then |s.binNames| else 0;
    r := ParsedRecord(
      s.jamoId,
      s.assembly.fileName, s.assembly.fileId, s.assembly.fileSize, s.assembly.fileStatus,
      s.rawReads.fileName, s.rawReads.fileId, s.rawReads.fileSize, s.rawReads.fileStatus,
      Join(s.binNames, ';'), Join(s.binIds, ';'), Join(Decimals(s.binSizes), ';'), Join(s.binStatuses, ';'),
      binCount, s.externallySequenced, s.latitude, s.longitude);
  }
}

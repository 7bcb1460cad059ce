/**
 * The JSON document returned by the repository's search endpoint, reduced to the
 * keys the extractor reads. Every key the source reads with `dict.get` is an
 * `Option` field (`None` = the key is absent); JSON scalars other than file
 * sizes are kept as the text the TSV writer produces for them.
 */
module Document {
  import opened Wrappers

  /** A latitude/longitude pair as stored under `sow_segment`
      (`latitude_of_sample_collection`, `longitude_of_sample_collection`)
      or under `gold_data` (`latitude`, `longitude`). */
  datatype Coordinates = Coordinates(latitude: Option<string>, longitude: Option<string>)

  datatype Portal = Portal(displayLocation: Option<seq<string>>)

  /** A file's `metadata` object. */
  datatype FileMetadata = FileMetadata(
    dataUtilizationStatus: Option<string>,
    portal: Option<Portal>,
    contentType: Option<string>,
    sowSegment: Option<Coordinates>,
    goldData: Option<Coordinates>)

  /** One element of an organism's `files` list. */
  datatype FileEntry = FileEntry(
    fileName: Option<string>,
    id: Option<string>,
    fileSize: Option<int>,
    metadata: Option<FileMetadata>)

  datatype SequencingProject = SequencingProject(scientificProgramName: Option<string>)

  /** `top_hit.metadata.proposal.pi`. */
  datatype PrincipalInvestigator = PrincipalInvestigator(
    firstName: Option<string>,
    middleName: Option<string>,
    lastName: Option<string>,
    country: Option<string>,
    institution: Option<string>,
    emailAddress: Option<string>)

  datatype Proposal = Proposal(pi: Option<PrincipalInvestigator>)

  /** An element of `analysis_project.sequencing_projects`. */
  datatype SequencingProjectRef = SequencingProjectRef(sequencingProjectId: Option<string>)

  datatype AnalysisProject = AnalysisProject(
    sequencingProjects: Option<seq<SequencingProjectRef>>,
    analysisProjectName: Option<string>)

  /** `top_hit.metadata`. */
  datatype HitMetadata = HitMetadata(
    sequencingProject: Option<SequencingProject>,
    proposal: Option<Proposal>,
    analysisProject: Option<AnalysisProject>,
    analysisProjectId: Option<string>)

  /** An organism's `top_hit`; `otherKeys` records whether the object holds keys
      this model does not read, which matters only for its truthiness. */
  datatype TopHit = TopHit(id: Option<string>, metadata: Option<HitMetadata>, otherKeys: bool)

  datatype Organism = Organism(
    topHit: Option<TopHit>,
    files: Option<seq<FileEntry>>,
    aggId: Option<string>,
    kingdom: Option<string>,
    labelText: Option<string>)

  /** The whole response; a failed fetch yields the empty object, `SearchResult(None)`. */
  datatype SearchResult = SearchResult(organisms: Option<seq<Organism>>)

  const Unavailable := SearchResult(None)

  /** The placeholder the program writes for a value it could not find. */
  const NotAvailable := "N/A"

  // ------------------------------------------- lookups with their defaults

  function OrganismsOf(doc: SearchResult): seq<Organism>
  {
    doc.organisms.GetOr([])
  }

  function FilesOf(o: Organism): seq<FileEntry>
  {
    o.files.GetOr([])
  }

  /** Python's `if top_hit:` — present and not the empty object. */
  predicate IsTruthy(t: TopHit)
  {
    t.id.Some? || t.metadata.Some? || t.otherKeys
  }

  predicate HasTruthyHit(o: Organism)
  {
    o.topHit.Some? && IsTruthy(o.topHit.value)
  }

  /** `top_hit.get('metadata', {}).get('sequencing_project', {}).get('scientific_program_name', '')`. */
  function ProgramName(t: TopHit): string
  {
    match t.metadata
    case None => ""
    case Some(m) =>
      match m.sequencingProject
      case None => ""
      case Some(p) => p.scientificProgramName.GetOr("")
  }

  function FileName(f: FileEntry): string
  {
    f.fileName.GetOr("")
  }

  function FileId(f: FileEntry): string
  {
    f.id.GetOr("")
  }

  function FileSize(f: FileEntry): int
  {
    f.fileSize.GetOr(0)
  }

  /** `file.get('metadata', {}).get('data_utilization_status', 'Unknown')`. */
  function FileStatus(f: FileEntry): string
  {
    match f.metadata
    case None => "Unknown"
    case Some(m) => m.dataUtilizationStatus.GetOr("Unknown")
  }

  /** `file.get('metadata', {}).get('portal', {}).get('display_location', [])`. */
  function DisplayLocation(f: FileEntry): seq<string>
  {
    match f.metadata
    case None => []
    case Some(m) =>
      match m.portal
      case None => []
      case Some(p) => p.displayLocation.GetOr([])
  }

  /** `file.get('metadata', {}).get('content_type')`. */
  function ContentType(f: FileEntry): Option<string>
  {
    match f.metadata
    case None => None
    case Some(m) => m.contentType
  }

  const NoCoordinates := Coordinates(None, None)

  function SowSegment(f: FileEntry): Coordinates
  {
    match f.metadata
    case None => NoCoordinates
    case Some(m) => m.sowSegment.GetOr(NoCoordinates)
  }

  function GoldData(f: FileEntry): Coordinates
  {
    match f.metadata
    case None => NoCoordinates
    case Some(m) => m.goldData.GetOr(NoCoordinates)
  }

  /** Both keys are present. */
  predicate IsComplete(c: Coordinates)
  {
    c.latitude.Some? && c.longitude.Some?
  }
}

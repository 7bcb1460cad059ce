/**
 * What `parse_json_data` promises, proved about its specification `Resolve`:
 * each field is characterised without reference to the loop that computes it.
 */
module ExtractorProperties {
  import opened Wrappers
  import opened Document
  import opened Extractor

  /** Every file of every organism, in document order. */
  function AllFiles(orgs: seq<Organism>): seq<FileEntry>
    decreases |orgs|
  {
    if orgs == [] then [] else AllFiles(orgs[..|orgs| - 1]) + FilesOf(orgs[|orgs| - 1])
  }

  /** The state with the two top-hit fields reset: what the file loop alone decides. */
  function FilePart(s: State): State
  {
    s.(jamoId := IdNotFound, externallySequenced := "no")
  }

  // ------------------------------------------- the file loop on its own

  lemma {:induction false} VisitFilesAppend(s: State, a: seq<FileEntry>, b: seq<FileEntry>, opts: Options)
    ensures VisitFiles(s, a + b, opts) == VisitFiles(VisitFiles(s, a, opts), b, opts)
    decreases |b|
  {
    if b == [] {
      assert a + b == a;
    } else {
      assert (a + b)[..|a + b| - 1] == a + b[..|b| - 1];
      VisitFilesAppend(s, a, b[..|b| - 1], opts);
    }
  }

  /** Files never touch the JAMO id or the external flag, and do not read them. */
  lemma {:induction false} VisitFilesSplits(s: State, fs: seq<FileEntry>, opts: Options)
    ensures VisitFiles(s, fs, opts).jamoId == s.jamoId
    ensures VisitFiles(s, fs, opts).externallySequenced == s.externallySequenced
    ensures FilePart(VisitFiles(s, fs, opts)) == VisitFiles(FilePart(s), fs, opts)
    decreases |fs|
  {
    if fs != [] {
      VisitFilesSplits(s, fs[..|fs| - 1], opts);
    }
  }

  /** The fold over organisms, restricted to the file fields, is the fold over all their files. */
  lemma {:induction false} FilePartIsFileFold(s: State, orgs: seq<Organism>, opts: Options)
    ensures FilePart(VisitOrganisms(s, orgs, opts)) == VisitFiles(FilePart(s), AllFiles(orgs), opts)
    decreases |orgs|
  {
    if orgs != [] {
      var init, o := orgs[..|orgs| - 1], orgs[|orgs| - 1];
      var mid := VisitTopHit(VisitOrganisms(s, init, opts), o);
      FilePartIsFileFold(s, init, opts);
      VisitFilesSplits(mid, FilesOf(o), opts);
      assert FilePart(mid) == FilePart(VisitOrganisms(s, init, opts));
      VisitFilesAppend(FilePart(s), AllFiles(init), FilesOf(o), opts);
    }
  }

  /** The file loop, run from the initial state over `AllFiles`. */
  lemma ResolveFiles(doc: SearchResult, opts: Options)
    ensures FilePart(Resolve(doc, opts)) == VisitFiles(Initial, AllFiles(OrganismsOf(doc)), opts)
  {
    FilePartIsFileFold(Initial, OrganismsOf(doc), opts);
  }

  // ----------------------------------------------- assembly and raw reads

  ghost predicate LastSelectedAt(kind: Kind, opts: Options, fs: seq<FileEntry>, k: int)
  {
    0 <= k < |fs| && Selects(kind, opts, fs[k])
    && forall j :: k < j < |fs| ==> !Selects(kind, opts, fs[j])
  }

  ghost predicate LastPositiveAt(kind: Kind, opts: Options, fs: seq<FileEntry>, k: int)
  {
    0 <= k < |fs| && Selects(kind, opts, fs[k]) && FileSize(fs[k]) > 0
    && forall j :: k < j < |fs| && Selects(kind, opts, fs[j]) ==> FileSize(fs[j]) <= 0
  }

  lemma {:induction false} SlotWithoutMatch(s: State, fs: seq<FileEntry>, opts: Options, kind: Kind)
    requires forall j :: 0 <= j < |fs| ==> !Selects(kind, opts, fs[j])
    ensures SlotOf(VisitFiles(s, fs, opts), kind) == SlotOf(s, kind)
    decreases |fs|
  {
    if fs != [] {
      SlotWithoutMatch(s, fs[..|fs| - 1], opts, kind);
    }
  }

  lemma {:induction false} SlotLastMatch(s: State, fs: seq<FileEntry>, opts: Options, kind: Kind, k: int)
    requires LastSelectedAt(kind, opts, fs, k)
    ensures var r := SlotOf(VisitFiles(s, fs, opts), kind);
      r.fileName == FileName(fs[k]) && r.fileId == FileId(fs[k]) && r.fileStatus == FileStatus(fs[k])
    decreases |fs|
  {
    if k < |fs| - 1 {
      SlotLastMatch(s, fs[..|fs| - 1], opts, kind, k);
    }
  }

  lemma {:induction false} SizeWithoutPositive(s: State, fs: seq<FileEntry>, opts: Options, kind: Kind)
    requires forall j :: 0 <= j < |fs| && Selects(kind, opts, fs[j]) ==> FileSize(fs[j]) <= 0
    ensures SlotOf(VisitFiles(s, fs, opts), kind).fileSize == SlotOf(s, kind).fileSize
    decreases |fs|
  {
    if fs != [] {
      SizeWithoutPositive(s, fs[..|fs| - 1], opts, kind);
    }
  }

  lemma {:induction false} SizeLastPositive(s: State, fs: seq<FileEntry>, opts: Options, kind: Kind, k: int)
    requires LastPositiveAt(kind, opts, fs, k)
    ensures SlotOf(VisitFiles(s, fs, opts), kind).fileSize == FileSize(fs[k])
    decreases |fs|
  {
    if k < |fs| - 1 {
      SizeLastPositive(s, fs[..|fs| - 1], opts, kind, k);
    }
  }

  /**
   * Assembly and raw-reads fields (request-JGI-API.py:51-61): name, id and
   * status are those of the last matching file; the size is that of the last
   * matching file with a positive size, else 0; with no match, or with the
   * category switched off, the fields keep their initial values.
   */
  lemma ResolvedSlot(doc: SearchResult, opts: Options, kind: Kind)
    ensures var r := SlotOf(Resolve(doc, opts), kind);
      var fs := AllFiles(OrganismsOf(doc));
      && (forall k :: LastSelectedAt(kind, opts, fs, k) ==>
            r.fileName == FileName(fs[k]) && r.fileId == FileId(fs[k]) && r.fileStatus == FileStatus(fs[k]))
      && (forall k :: LastPositiveAt(kind, opts, fs, k) ==> r.fileSize == FileSize(fs[k]))
      && ((forall j :: 0 <= j < |fs| && Selects(kind, opts, fs[j]) ==> FileSize(fs[j]) <= 0) ==> r.fileSize == 0)
      && ((forall j :: 0 <= j < |fs| ==> !Selects(kind, opts, fs[j])) ==> r == EmptySlot)
  {
    var fs := AllFiles(OrganismsOf(doc));
    ResolveFiles(doc, opts);
    assert SlotOf(Resolve(doc, opts), kind) == SlotOf(VisitFiles(Initial, fs, opts), kind);
    forall k | LastSelectedAt(kind, opts, fs, k)
      ensures var r := SlotOf(VisitFiles(Initial, fs, opts), kind);
        r.fileName == FileName(fs[k]) && r.fileId == FileId(fs[k]) && r.fileStatus == FileStatus(fs[k])
    {
      SlotLastMatch(Initial, fs, opts, kind, k);
    }
    forall k | LastPositiveAt(kind, opts, fs, k)
      ensures SlotOf(VisitFiles(Initial, fs, opts), kind).fileSize == FileSize(fs[k])
    {
      SizeLastPositive(Initial, fs, opts, kind, k);
    }
    if forall j :: 0 <= j < |fs| && Selects(kind, opts, fs[j]) ==> FileSize(fs[j]) <= 0 {
      SizeWithoutPositive(Initial, fs, opts, kind);
    }
    if forall j :: 0 <= j < |fs| ==> !Selects(kind, opts, fs[j]) {
      SlotWithoutMatch(Initial, fs, opts, kind);
    }
  }

  /** A switched-off category is never filled (request-JGI-API.py:51, 57). */
  lemma SwitchedOffSlot(doc: SearchResult, opts: Options, kind: Kind)
    requires kind == Assembly ==> !opts.includeAssemblies
    requires kind == RawReads ==> !opts.includeReads
    ensures SlotOf(Resolve(doc, opts), kind) == EmptySlot
  {
    ResolvedSlot(doc, opts, kind);
  }

  // ------------------------------------------------------------------ bins

  /** The files the bins rule selects, in order. */
  function BinFiles(fs: seq<FileEntry>, opts: Options): (r: seq<FileEntry>)
    ensures forall f :: f in r <==> f in fs && SelectsBin(opts, f)
    ensures !opts.includeBins ==> r == []
    decreases |fs|
  {
    if fs == [] then []
    else
      var init := fs[..|fs| - 1];
      assert fs == init + [fs[|fs| - 1]];
      BinFiles(init, opts) + if SelectsBin(opts, fs[|fs| - 1]) then [fs[|fs| - 1]] else []
  }

  /** One entry of the four bins lists, as appended for file `f`. */
  ghost predicate BinEntryIs(s: State, i: int, f: FileEntry)
    requires 0 <= i < |s.binNames| && |s.binIds| == |s.binSizes| == |s.binStatuses| == |s.binNames|
  {
    s.binNames[i] == FileName(f) && s.binIds[i] == FileId(f)
    && s.binSizes[i] == (if FileSize(f) > 0 then FileSize(f) else 0) && s.binStatuses[i] == FileStatus(f)
  }

  ghost predicate Aligned(s: State)
  {
    |s.binIds| == |s.binSizes| == |s.binStatuses| == |s.binNames|
  }

  lemma {:induction false} BinsAppended(s: State, fs: seq<FileEntry>, opts: Options)
    requires Aligned(s)
    ensures var r := VisitFiles(s, fs, opts);
      var b := BinFiles(fs, opts);
      && Aligned(r)
      && |r.binNames| == |s.binNames| + |b|
      && (forall i :: 0 <= i < |s.binNames| ==>
            (r.binNames[i] == s.binNames[i] && r.binIds[i] == s.binIds[i]
             && r.binSizes[i] == s.binSizes[i] && r.binStatuses[i] == s.binStatuses[i]))
      && (forall i :: 0 <= i < |b| ==> BinEntryIs(r, |s.binNames| + i, b[i]))
    decreases |fs|
  {
    if fs != [] {
      var init, f := fs[..|fs| - 1], fs[|fs| - 1];
      BinsAppended(s, init, opts);
      assert VisitFiles(s, fs, opts) == VisitFile(VisitFiles(s, init, opts), f, opts);
      assert BinFiles(fs, opts) == BinFiles(init, opts) + if SelectsBin(opts, f) then [f] else [];
    }
  }

  /**
   * Bins (request-JGI-API.py:63-67): the four lists are parallel, hold one
   * entry per matching file in document order and nothing else, every size is
   * non-negative, and `bin_count` is their length (0 when bins are switched
   * off, in which case the lists are empty).
   */
  lemma ResolvedBins(doc: SearchResult, opts: Options)
    ensures var s := Resolve(doc, opts);
      var b := BinFiles(AllFiles(OrganismsOf(doc)), opts);
      && |s.binIds| == |s.binSizes| == |s.binStatuses| == |s.binNames| == |b|
      && (forall i :: 0 <= i < |b| ==> BinEntryIs(s, i, b[i]))
      && (forall i :: 0 <= i < |s.binSizes| ==> s.binSizes[i] >= 0)
      && Finish(s, opts).binCount == (if opts.includeBins then |s.binNames| else 0)
      && (!opts.includeBins ==> s.binNames == [])
  {
    var fs := AllFiles(OrganismsOf(doc));
    ResolveFiles(doc, opts);
    BinsAppended(Initial, fs, opts);
    var s := Resolve(doc, opts);
    var b := BinFiles(fs, opts);
    assert FilePart(s).binNames == s.binNames;
    forall i | 0 <= i < |s.binSizes| ensures s.binSizes[i] >= 0 {
      assert BinEntryIs(s, i, b[i]);
    }
  }

  // ----------------------------------------------------------- coordinates

  /**
   * A file's own coordinate pair, written as an explicit precedence merge:
   * `gold_data` when it holds both keys, else `sow_segment` when it does.
   */
  function FileCoordinates(f: FileEntry): Option<(string, string)>
  {
    var sow, gold := SowSegment(f), GoldData(f);
    if IsComplete(gold) then Some((gold.latitude.value, gold.longitude.value))
    else if IsComplete(sow) then Some((sow.latitude.value, sow.longitude.value))
    else None
  }

  ghost predicate LastPairAt(fs: seq<FileEntry>, k: int)
  {
    0 <= k < |fs| && FileCoordinates(fs[k]).Some?
    && forall j :: k < j < |fs| ==> FileCoordinates(fs[j]).None?
  }

  lemma {:induction false} CoordinatesWithoutPair(s: State, fs: seq<FileEntry>, opts: Options)
    requires forall j :: 0 <= j < |fs| ==> FileCoordinates(fs[j]).None?
    ensures VisitFiles(s, fs, opts).latitude == s.latitude
    ensures VisitFiles(s, fs, opts).longitude == s.longitude
    decreases |fs|
  {
    if fs != [] {
      CoordinatesWithoutPair(s, fs[..|fs| - 1], opts);
    }
  }

  lemma {:induction false} CoordinatesLastPair(s: State, fs: seq<FileEntry>, opts: Options, k: int)
    requires LastPairAt(fs, k)
    ensures (VisitFiles(s, fs, opts).latitude, VisitFiles(s, fs, opts).longitude) == FileCoordinates(fs[k]).value
    decreases |fs|
  {
    if k < |fs| - 1 {
      CoordinatesLastPair(s, fs[..|fs| - 1], opts, k);
    }
  }

  /**
   * Latitude and longitude (request-JGI-API.py:70-82) are adopted as a pair,
   * from the last file that supplies a complete pair, `gold_data` winning over
   * `sow_segment` within a file; they stay "N/A" when no file supplies one.
   */
  lemma ResolvedCoordinates(doc: SearchResult, opts: Options)
    ensures var s := Resolve(doc, opts);
      var fs := AllFiles(OrganismsOf(doc));
      && (forall k :: LastPairAt(fs, k) ==> (s.latitude, s.longitude) == FileCoordinates(fs[k]).value)
      && ((forall j :: 0 <= j < |fs| ==> FileCoordinates(fs[j]).None?) ==>
            s.latitude == NotAvailable && s.longitude == NotAvailable)
  {
    var fs := AllFiles(OrganismsOf(doc));
    ResolveFiles(doc, opts);
    forall k | LastPairAt(fs, k)
      ensures (VisitFiles(Initial, fs, opts).latitude, VisitFiles(Initial, fs, opts).longitude) == FileCoordinates(fs[k]).value
    {
      CoordinatesLastPair(Initial, fs, opts, k);
    }
    if forall j :: 0 <= j < |fs| ==> FileCoordinates(fs[j]).None? {
      CoordinatesWithoutPair(Initial, fs, opts);
    }
  }

  // ------------------------------------------------- JAMO id, external flag

  ghost predicate LastHitAt(orgs: seq<Organism>, k: int)
  {
    0 <= k < |orgs| && HasTruthyHit(orgs[k])
    && forall j :: k < j < |orgs| ==> !HasTruthyHit(orgs[j])
  }

  ghost predicate MetagenomeAt(orgs: seq<Organism>, i: int)
  {
    0 <= i < |orgs| && HasTruthyHit(orgs[i]) && IsMetagenome(orgs[i].topHit.value)
  }

  lemma {:induction false} HitJamoId(s: State, orgs: seq<Organism>, opts: Options)
    ensures var r := VisitOrganisms(s, orgs, opts);
      && ((forall j :: 0 <= j < |orgs| ==> !HasTruthyHit(orgs[j])) ==> r.jamoId == s.jamoId)
      && (forall k :: LastHitAt(orgs, k) ==> r.jamoId == orgs[k].topHit.value.id.GetOr(IdNotFound))
    decreases |orgs|
  {
    if orgs != [] {
      var init, o := orgs[..|orgs| - 1], orgs[|orgs| - 1];
      HitJamoId(s, init, opts);
      VisitFilesSplits(VisitTopHit(VisitOrganisms(s, init, opts), o), FilesOf(o), opts);
      forall k | LastHitAt(orgs, k)
        ensures VisitOrganisms(s, orgs, opts).jamoId == orgs[k].topHit.value.id.GetOr(IdNotFound)
      {
        if k < |orgs| - 1 {
          assert LastHitAt(init, k);
        }
      }
    }
  }

  lemma {:induction false} HitExternal(s: State, orgs: seq<Organism>, opts: Options)
    ensures var r := VisitOrganisms(s, orgs, opts);
      && ((forall i :: 0 <= i < |orgs| ==> !MetagenomeAt(orgs, i)) ==> r.externallySequenced == s.externallySequenced)
      && (forall i :: MetagenomeAt(orgs, i) ==> r.externallySequenced == "yes")
    decreases |orgs|
  {
    if orgs != [] {
      var init, o := orgs[..|orgs| - 1], orgs[|orgs| - 1];
      HitExternal(s, init, opts);
      VisitFilesSplits(VisitTopHit(VisitOrganisms(s, init, opts), o), FilesOf(o), opts);
      forall i | MetagenomeAt(orgs, i)
        ensures VisitOrganisms(s, orgs, opts).externallySequenced == "yes"
      {
        if i < |orgs| - 1 {
          assert MetagenomeAt(init, i);
        }
      }
      if forall i :: 0 <= i < |orgs| ==> !MetagenomeAt(orgs, i) {
        forall i | 0 <= i < |init| ensures !MetagenomeAt(init, i) {
          assert !MetagenomeAt(orgs, i);
        }
        assert !MetagenomeAt(orgs, |orgs| - 1);
      }
    }
  }

  /**
   * The JAMO id (request-JGI-API.py:19, 38-40) is the `_id` of the last truthy
   * `top_hit` ("id-not-found" when that hit has none), or "id-not-found" when
   * no organism has a truthy hit.
   */
  lemma ResolvedJamoId(doc: SearchResult, opts: Options)
    ensures var s := Resolve(doc, opts);
      var orgs := OrganismsOf(doc);
      && ((forall j :: 0 <= j < |orgs| ==> !HasTruthyHit(orgs[j])) ==> s.jamoId == IdNotFound)
      && (forall k :: LastHitAt(orgs, k) ==> s.jamoId == orgs[k].topHit.value.id.GetOr(IdNotFound))
  {
    HitJamoId(Initial, OrganismsOf(doc), opts);
  }

  /**
   * The external flag (request-JGI-API.py:32, 41-43) is "yes" exactly when some
   * truthy top hit's program name lower-cases to "metagenome", else "no".
   */
  lemma ResolvedExternal(doc: SearchResult, opts: Options)
    ensures var orgs := OrganismsOf(doc);
      Resolve(doc, opts).externallySequenced == if exists i :: MetagenomeAt(orgs, i) then "yes" else "no"
  {
    var orgs := OrganismsOf(doc);
    HitExternal(Initial, orgs, opts);
    if exists i :: MetagenomeAt(orgs, i) {
      var i :| MetagenomeAt(orgs, i);
    }
  }

  /** Once "yes", the flag is never set back: later organisms cannot undo it. */
  lemma ExternalNeverReset(s: State, orgs: seq<Organism>, opts: Options)
    requires s.externallySequenced == "yes"
    ensures VisitOrganisms(s, orgs, opts).externallySequenced == "yes"
  {
    HitExternal(s, orgs, opts);
    if exists i :: 0 <= i < |orgs| && MetagenomeAt(orgs, i) {
      var i :| 0 <= i < |orgs| && MetagenomeAt(orgs, i);
    }
  }

  // -------------------------------------------------------- whole record

  /** The sizes written out are never negative, so `str` writes plain digits. */
  ghost predicate SizesNonNegative(s: State)
  {
    s.assembly.fileSize >= 0 && s.rawReads.fileSize >= 0
    && forall i :: 0 <= i < |s.binSizes| ==> s.binSizes[i] >= 0
  }

  lemma {:induction false} SizesStayNonNegative(s: State, fs: seq<FileEntry>, opts: Options)
    requires SizesNonNegative(s)
    ensures SizesNonNegative(VisitFiles(s, fs, opts))
    decreases |fs|
  {
    if fs != [] {
      SizesStayNonNegative(s, fs[..|fs| - 1], opts);
    }
  }

  lemma ResolvedSizesNonNegative(doc: SearchResult, opts: Options)
    ensures SizesNonNegative(Resolve(doc, opts))
  {
    ResolveFiles(doc, opts);
    SizesStayNonNegative(Initial, AllFiles(OrganismsOf(doc)), opts);
  }

  /** A document without organisms (or an unavailable one) leaves every field at its default. */
  lemma NoOrganisms(doc: SearchResult, opts: Options)
    requires OrganismsOf(doc) == []
    ensures ParseSpec(doc, opts) == ParsedRecord(IdNotFound, "", "", 0, "", "", "", 0, "", "", "", "", "", 0, "no", NotAvailable, NotAvailable)
  {
  }
}

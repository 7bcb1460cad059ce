/**
 * The attribution extractor `extract_additional_metadata`
 * (request-JGI-API.py:92-129): ten fields read from the first organism only,
 * each with its own default, collected in a Python dict whose key order is
 * fixed by the defaults it starts from.
 */
module Attribution {
  import opened Wrappers
  import opened Text
  import opened Document

  // ------------------------------------------------- an insertion-ordered dict

  /** A Python dict with string keys and values, as its items in order. */
  type Dict = seq<(string, string)>

  function Keys(d: Dict): (ks: seq<string>)
    ensures |ks| == |d|
    ensures forall i :: 0 <= i < |d| ==> ks[i] == d[i].0
  {
    seq(|d|, i requires 0 <= i < |d| => d[i].0)
  }

  /** `d.values()`, in key order. */
  function Values(d: Dict): (vs: seq<string>)
    ensures |vs| == |d|
    ensures forall i :: 0 <= i < |d| ==> vs[i] == d[i].1
  {
    seq(|d|, i requires 0 <= i < |d| => d[i].1)
  }

  ghost predicate DistinctKeys(d: Dict)
  {
    forall i, j :: 0 <= i < j < |d| ==> d[i].0 != d[j].0
  }

  /** `d.get(k)`. */
  function Lookup(d: Dict, k: string): Option<string>
    decreases |d|
  {
    if d == [] then None else if d[0].0 == k then Some(d[0].1) else Lookup(d[1..], k)
  }

  /** `d[k] = v`: an existing key keeps its place, a new key goes last. */
  function Put(d: Dict, k: string, v: string): Dict
    decreases |d|
  {
    if d == [] then [(k, v)]
    else if d[0].0 == k then [(k, v)] + d[1..]
    else [d[0]] + Put(d[1..], k, v)
  }

  /** `d.update(kvs)` for a dict literal `kvs`, assigned left to right. */
  function Update(d: Dict, kvs: Dict): Dict
    decreases |kvs|
  {
    if kvs == [] then d else Update(Put(d, kvs[0].0, kvs[0].1), kvs[1..])
  }

  /** Assigning to the key at position `i` replaces that item in place. */
  lemma {:induction false} PutAt(d: Dict, i: nat, v: string)
    requires i < |d| && DistinctKeys(d)
    ensures Put(d, d[i].0, v) == d[..i] + [(d[i].0, v)] + d[i + 1..]
    decreases i
  {
    if i > 0 {
      PutAt(d[1..], i - 1, v);
      assert d[1..][..i - 1] == d[1..i];
      assert d[1..][i..] == d[i + 1..];
      assert d[..i] == [d[0]] + d[1..i];
    }
  }

  /**
   * Updating with a dict of exactly the same keys, in the same order, overwrites
   * every value and nothing else: the result is the update itself. (`done`
   * counts the items already assigned.)
   */
  lemma {:induction false} UpdateOverwrites(d: Dict, kvs: Dict, done: nat)
    requires Keys(d) == Keys(kvs) && DistinctKeys(kvs)
    requires done <= |kvs| && d[..done] == kvs[..done]
    ensures Update(d, kvs[done..]) == kvs
    decreases |kvs| - done
  {
    if done == |kvs| {
      assert d == d[..done] && kvs == kvs[..done];
    } else {
      assert d[done].0 == kvs[done].0;
      PutAt(d, done, kvs[done].1);
      var d' := Put(d, kvs[done].0, kvs[done].1);
      assert d'[..done + 1] == kvs[..done + 1] by {
        assert d'[..done] == d[..done];
        assert kvs[..done + 1] == kvs[..done] + [kvs[done]];
      }
      assert Keys(d') == Keys(kvs) by {
        forall i | 0 <= i < |d'| ensures d'[i].0 == kvs[i].0 {
          if i != done { assert d'[i] == d[i]; }
        }
      }
      assert kvs[done..][1..] == kvs[done + 1..];
      UpdateOverwrites(d', kvs, done + 1);
    }
  }

  // ------------------------------------------------------ the ten fields

  const MetadataKeys: seq<string> := [
    "agg_id", "kingdom", "label", "country", "institution",
    "its_sp_id", "its_ap_id", "PI_name", "Email", "analysis_project_name"]

  /** The dict the function starts from (request-JGI-API.py:94-105). */
  function Defaults(): (d: Dict)
    ensures Keys(d) == MetadataKeys
    ensures forall i :: 0 <= i < |d| ==> d[i].1 == NotAvailable
  {
    seq(|MetadataKeys|, i requires 0 <= i < |MetadataKeys| => (MetadataKeys[i], NotAvailable))
  }

  /** In a dict whose every value is `v`, a key present maps to `v` and any other key is missing. */
  lemma {:induction false} LookupUniform(d: Dict, v: string, k: string)
    requires forall i :: 0 <= i < |d| ==> d[i].1 == v
    ensures Lookup(d, k) == if k in Keys(d) then Some(v) else None
    decreases |d|
  {
    if d != [] {
      LookupUniform(d[1..], v, k);
      assert Keys(d) == [d[0].0] + Keys(d[1..]);
    }
  }

  /** The starting dict maps each of the ten keys to "N/A" and holds no other key. */
  lemma DefaultsLookup(k: string)
    ensures Lookup(Defaults(), k) == if k in MetadataKeys then Some(NotAvailable) else None
  {
    LookupUniform(Defaults(), NotAvailable, k);
  }

  /** `organism.get('top_hit', {}).get('metadata', {})`. */
  function HitMetadataOf(o: Organism): Option<HitMetadata>
  {
    match o.topHit
    case None => None
    case Some(t) => t.metadata
  }

  /** `...get('proposal', {}).get('pi', {})`. */
  function PiOf(o: Organism): Option<PrincipalInvestigator>
  {
    match HitMetadataOf(o)
    case None => None
    case Some(m) =>
      match m.proposal
      case None => None
      case Some(p) => p.pi
  }

  /** `...get('analysis_project', {})`. */
  function AnalysisProjectOf(o: Organism): Option<AnalysisProject>
  {
    match HitMetadataOf(o)
    case None => None
    case Some(m) => m.analysisProject
  }

  /** The keys of the PI object that are read. */
  datatype PiKey = FirstName | MiddleName | LastName | Country | Institution | EmailAddress

  function PiEntry(p: PrincipalInvestigator, key: PiKey): Option<string>
  {
    match key
    case FirstName => p.firstName
    case MiddleName => p.middleName
    case LastName => p.lastName
    case Country => p.country
    case Institution => p.institution
    case EmailAddress => p.emailAddress
  }

  /** `pi_info.get(key, dflt)`, where a missing PI object reads as `{}`. */
  function PiField(pi: Option<PrincipalInvestigator>, key: PiKey, dflt: string): string
  {
    match pi
    case None => dflt
    case Some(p) => PiEntry(p, key).GetOr(dflt)
  }

  /** `sequencing_projects[0].get('sequencing_project_id', 'N/A') if sequencing_projects else 'N/A'`. */
  function SequencingProjectId(o: Organism): string
  {
    var projects := match AnalysisProjectOf(o)
      case None => []
      case Some(a) => a.sequencingProjects.GetOr([]);
    if projects == [] then NotAvailable else projects[0].sequencingProjectId.GetOr(NotAvailable)
  }

  function AnalysisProjectId(o: Organism): string
  {
    match HitMetadataOf(o)
    case None => NotAvailable
    case Some(m) => m.analysisProjectId.GetOr(NotAvailable)
  }

  function AnalysisProjectName(o: Organism): string
  {
    match AnalysisProjectOf(o)
    case None => NotAvailable
    case Some(a) => a.analysisProjectName.GetOr(NotAvailable)
  }

  /**
   * The PI's full name (request-JGI-API.py:124): first name, the stripped middle
   * name followed by a space when the middle name is non-empty, last name,
   * joined by a space and stripped.
   */
  function PiName(pi: Option<PrincipalInvestigator>): string
  {
    var first := PiField(pi, FirstName, "");
    var middle := PiField(pi, MiddleName, "");
    var last := PiField(pi, LastName, "");
    Strip(first + " " + (if middle != "" then Strip(middle) + " " else "") + last)
  }

  /** The values of the dict literal passed to `update` (request-JGI-API.py:116-127), in key order. */
  function AttributeList(o: Organism): (vs: seq<string>)
    ensures |vs| == |MetadataKeys|
  {
    var pi := PiOf(o);
    [o.aggId.GetOr(NotAvailable),
     o.kingdom.GetOr(NotAvailable),
     o.labelText.GetOr(NotAvailable),
     PiField(pi, Country, NotAvailable),
     PiField(pi, Institution, NotAvailable),
     SequencingProjectId(o),
     AnalysisProjectId(o),
     PiName(pi),
     PiField(pi, EmailAddress, NotAvailable),
     AnalysisProjectName(o)]
  }

  /** The dict literal itself: each key of `MetadataKeys` with its value. */
  function Attributes(o: Organism): (d: Dict)
    ensures Keys(d) == MetadataKeys && Values(d) == AttributeList(o)
  {
    var vs := AttributeList(o);
    seq(|MetadataKeys|, i requires 0 <= i < |MetadataKeys| => (MetadataKeys[i], vs[i]))
  }

  /** `extract_additional_metadata(organisms)`; the result always has the ten keys in their fixed order. */
  function ExtractAdditionalMetadata(organisms: seq<Organism>): (r: Dict)
    ensures Keys(r) == MetadataKeys
    ensures organisms == [] ==> Values(r) == seq(10, i => NotAvailable)
    ensures organisms != [] ==> Values(r) == AttributeList(organisms[0])
  {
    if organisms == [] then Defaults()
    else
      var kvs := Attributes(organisms[0]);
      AttributesKeys(organisms[0]);
      assert kvs[0..] == kvs;
      UpdateOverwrites(Defaults(), kvs, 0);
      Update(Defaults(), kvs)
  }

  // ------------------------------------------------------------ properties

  lemma MetadataKeysDistinct()
    ensures forall i, j :: 0 <= i < j < |MetadataKeys| ==> MetadataKeys[i] != MetadataKeys[j]
  {
    forall i, j | 0 <= i < j < |MetadataKeys| ensures MetadataKeys[i] != MetadataKeys[j] {
      var a, b := MetadataKeys[i], MetadataKeys[j];
      assert |a| != |b| || a[0] != b[0] || a[4] != b[4];
    }
  }

  lemma AttributesKeys(o: Organism)
    ensures Keys(Attributes(o)) == MetadataKeys && DistinctKeys(Attributes(o))
  {
    MetadataKeysDistinct();
    var d := Attributes(o);
    assert forall i :: 0 <= i < |d| ==> d[i].0 == MetadataKeys[i];
  }

  /** Only the first organism is read. */
  lemma FirstOrganismOnly(organisms: seq<Organism>, rest: seq<Organism>)
    requires organisms != []
    ensures ExtractAdditionalMetadata(organisms + rest) == ExtractAdditionalMetadata(organisms[..1])
  {
  }

  /**
   * Each value is looked up on its own path from the first organism and falls
   * back to "N/A" independently of the others; `its_sp_id` comes from the
   * first sequencing project of the analysis project.
   */
  lemma {:induction false} AttributeValues(organisms: seq<Organism>)
    requires organisms != []
    ensures var r := ExtractAdditionalMetadata(organisms);
      var o := organisms[0];
      var pi := PiOf(o);
      && Lookup(r, "agg_id") == Some(o.aggId.GetOr(NotAvailable))
      && Lookup(r, "kingdom") == Some(o.kingdom.GetOr(NotAvailable))
      && Lookup(r, "label") == Some(o.labelText.GetOr(NotAvailable))
      && Lookup(r, "country") == Some(PiField(pi, Country, NotAvailable))
      && Lookup(r, "institution") == Some(PiField(pi, Institution, NotAvailable))
      && Lookup(r, "its_sp_id") == Some(SequencingProjectId(o))
      && Lookup(r, "its_ap_id") == Some(AnalysisProjectId(o))
      && Lookup(r, "PI_name") == Some(PiName(pi))
      && Lookup(r, "Email") == Some(PiField(pi, EmailAddress, NotAvailable))
      && Lookup(r, "analysis_project_name") == Some(AnalysisProjectName(o))
  {
    var r := ExtractAdditionalMetadata(organisms);
    var vs := AttributeList(organisms[0]);
    MetadataKeysDistinct();
    ValuesFromLookups(r, MetadataKeys);
    assert forall i :: 0 <= i < 10 ==> Lookup(r, MetadataKeys[i]) == Some(vs[i]) by {
      assert forall i :: 0 <= i < 10 ==> r[i].1 == Values(r)[i];
    }
    assert Lookup(r, MetadataKeys[0]) == Some(vs[0]);
    assert Lookup(r, MetadataKeys[1]) == Some(vs[1]);
    assert Lookup(r, MetadataKeys[2]) == Some(vs[2]);
    assert Lookup(r, MetadataKeys[3]) == Some(vs[3]);
    assert Lookup(r, MetadataKeys[4]) == Some(vs[4]);
    assert Lookup(r, MetadataKeys[5]) == Some(vs[5]);
    assert Lookup(r, MetadataKeys[6]) == Some(vs[6]);
    assert Lookup(r, MetadataKeys[7]) == Some(vs[7]);
    assert Lookup(r, MetadataKeys[8]) == Some(vs[8]);
    assert Lookup(r, MetadataKeys[9]) == Some(vs[9]);
  }

  /**
   * An organism without a top hit still yields its own `agg_id`, `kingdom` and
   * `label`; every field found under the top hit is "N/A", and the PI name is
   * the empty string rather than "N/A".
   */
  lemma WithoutTopHit(organisms: seq<Organism>)
    requires organisms != [] && organisms[0].topHit.None?
    ensures var r := ExtractAdditionalMetadata(organisms);
      var o := organisms[0];
      && Values(r) == [o.aggId.GetOr(NotAvailable), o.kingdom.GetOr(NotAvailable), o.labelText.GetOr(NotAvailable),
                       NotAvailable, NotAvailable, NotAvailable, NotAvailable, "", NotAvailable, NotAvailable]
  {
    var o := organisms[0];
    assert HitMetadataOf(o) == None;
    assert PiOf(o) == None && AnalysisProjectOf(o) == None;
    NoNameParts(PiOf(o));
  }

  /** A dict with distinct keys is determined by its keys and lookups. */
  lemma {:induction false} ValuesFromLookups(d: Dict, ks: seq<string>)
    requires Keys(d) == ks
    requires forall i, j :: 0 <= i < j < |ks| ==> ks[i] != ks[j]
    ensures forall i :: 0 <= i < |d| ==> Lookup(d, ks[i]) == Some(d[i].1)
    decreases |d|
  {
    if d != [] {
      assert Keys(d[1..]) == ks[1..];
      ValuesFromLookups(d[1..], ks[1..]);
    }
  }

  // ------------------------------------------------------------- PI names

  /** With no name parts at all the PI name is "", not "N/A". */
  lemma NoNameParts(pi: Option<PrincipalInvestigator>)
    requires PiField(pi, FirstName, "") == ""
    requires PiField(pi, MiddleName, "") == ""
    requires PiField(pi, LastName, "") == ""
    ensures PiName(pi) == ""
  {
    var s := PiField(pi, FirstName, "") + " " + "" + PiField(pi, LastName, "");
    assert s == " ";
    StripBlank(s);
  }

  /** First and last names without surrounding white space, and no middle name, are joined by one space. */
  lemma FullName(pi: PrincipalInvestigator, first: string, last: string)
    requires pi.firstName == Some(first) && pi.lastName == Some(last) && pi.middleName.GetOr("") == ""
    requires first != [] && !IsSpace(first[0]) && !IsSpace(first[|first| - 1])
    requires last != [] && !IsSpace(last[0]) && !IsSpace(last[|last| - 1])
    ensures PiName(Some(pi)) == first + " " + last
  {
    var s := first + " " + last;
    assert PiField(Some(pi), MiddleName, "") == "";
    assert first + " " + "" + last == s;
    assert PiName(Some(pi)) == Strip(s);
    assert s[0] == first[0] && s[|s| - 1] == last[|last| - 1];
    StripTrimmed(s);
  }

  /** A present middle name is stripped and set between the first and last names, one space each side. */
  lemma FullNameMiddle(pi: PrincipalInvestigator, first: string, middle: string, last: string)
    requires pi.firstName == Some(first) && pi.middleName == Some(middle) && pi.lastName == Some(last)
    requires middle != ""
    requires first != [] && !IsSpace(first[0]) && !IsSpace(first[|first| - 1])
    requires last != [] && !IsSpace(last[0]) && !IsSpace(last[|last| - 1])
    ensures PiName(Some(pi)) == first + " " + Strip(middle) + " " + last
  {
    var m := Strip(middle);
    var s := first + " " + (m + " ") + last;
    assert PiField(Some(pi), FirstName, "") == first && PiField(Some(pi), LastName, "") == last;
    assert PiField(Some(pi), MiddleName, "") == middle;
    assert PiName(Some(pi)) == Strip(s);
    assert s[0] == first[0];
    assert s[|s| - 1] == last[|last| - 1];
    StripTrimmed(s);
    assert s == first + " " + m + " " + last;
  }

  /** A last name alone is the whole name. */
  lemma LastNameOnly(pi: PrincipalInvestigator, last: string)
    requires pi.firstName.GetOr("") == "" && pi.middleName.GetOr("") == "" && pi.lastName == Some(last)
    requires last != [] && !IsSpace(last[0]) && !IsSpace(last[|last| - 1])
    ensures PiName(Some(pi)) == last
  {
    assert "" + " " + "" + last == " " + last;
    StripPadded(" ", last, "");
    assert " " + last + "" == " " + last;
  }
}

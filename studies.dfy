/**
 * Study search and study summaries (`src/lib/dicom-web/studies.ts`): the QIDO-RS query of a
 * study filter, the record each matching study becomes, the SM series a study is shown by
 * (the one with the fewest frames), the graphic types of its annotation series, and the
 * size order of SM images.
 */
module Studies {
  import opened Wrappers
  import Js
  import UrlParams
  import opened DicomJson
  import DicomWeb
  import Series

  type Entry = UrlParams.Entry

  // ---------------------------------------------------------------- the search parameters

  /** `StudyFilter`: each field optional. */
  datatype StudyFilter = StudyFilter(
    patientId: Option<string>,
    patientName: Option<string>,
    studyUid: Option<string>,
    accessionNumber: Option<string>,
    studyDate: Option<string>)

  /** The pairs of the query, in the order they are set. */
  function FilterEntries(f: StudyFilter): seq<Entry> {
    IdEntries(f) + UrlParams.When(DicomWeb.Given(f.studyDate), StudyDate, f.studyDate.GetOr(""))
  }

  function IdEntries(f: StudyFilter): seq<Entry> {
    [(ModalitiesInStudy, "SM")]
    + UrlParams.When(DicomWeb.Given(f.patientId), PatientID, f.patientId.GetOr(""))
    + UrlParams.When(DicomWeb.Given(f.patientName), PatientName, f.patientName.GetOr(""))
    + UrlParams.When(DicomWeb.Given(f.studyUid), StudyInstanceUID, f.studyUid.GetOr(""))
    + UrlParams.When(DicomWeb.Given(f.accessionNumber), AccessionNumber, f.accessionNumber.GetOr(""))
  }

  /** The filter field a query name carries, if any. */
  function FilterField(f: StudyFilter, key: string): Option<Option<string>> {
    if key == PatientID then Some(f.patientId)
    else if key == PatientName then Some(f.patientName)
    else if key == StudyInstanceUID then Some(f.studyUid)
    else if key == AccessionNumber then Some(f.accessionNumber)
    else if key == StudyDate then Some(f.studyDate)
    else None
  }

  /** What `get(key)` should read on the query of a filter. */
  function FilterExpected(f: StudyFilter, key: string): Option<string> {
    if key == ModalitiesInStudy then Some("SM")
    else match FilterField(f, key)
      case None => None
      case Some(field) => if DicomWeb.Given(field) then field else None
  }

  /** A pair is in the query exactly when `FilterExpected` gives its name that value. */
  lemma FilterMember(f: StudyFilter, key: string, value: string)
    ensures (key, value) in FilterEntries(f) <==> FilterExpected(f, key) == Some(value)
  {
    QueryTagsDistinct();
    if key == ModalitiesInStudy {
      ModalityMember(f, value);
    } else if key == PatientID {
      PatientIdMember(f, value);
    } else if key == PatientName {
      PatientNameMember(f, value);
    } else if key == StudyInstanceUID {
      StudyUidMember(f, value);
    } else if key == AccessionNumber {
      AccessionNumberMember(f, value);
    } else if key == StudyDate {
      StudyDateMember(f, value);
    } else {
      OtherMember(f, key, value);
    }
  }

  /**
   * What `get(key)` reads on the query: `SM` for ModalitiesInStudy, each non-empty filter field
   * verbatim under its tag, and `null` for every other name.
   */
  lemma FilterGet(f: StudyFilter, key: string)
    ensures UrlParams.Get(FilterEntries(f), key) == FilterExpected(f, key)
  {
    forall value ensures (key, value) in FilterEntries(f) <==> FilterExpected(f, key) == Some(value) {
      FilterMember(f, key, value);
    }
    UrlParams.GetByMembers(FilterEntries(f), key, FilterExpected(f, key));
  }

  lemma ModalityMember(f: StudyFilter, value: string)
    ensures (ModalitiesInStudy, value) in FilterEntries(f) <==> value == "SM"
  {
    QueryTagsDistinct();
  }

  lemma PatientIdMember(f: StudyFilter, value: string)
    ensures (PatientID, value) in FilterEntries(f) <==> DicomWeb.Given(f.patientId) && value == f.patientId.value
  {
    QueryTagsDistinct();
  }

  lemma PatientNameMember(f: StudyFilter, value: string)
    ensures (PatientName, value) in FilterEntries(f) <==> DicomWeb.Given(f.patientName) && value == f.patientName.value
  {
    QueryTagsDistinct();
  }

  lemma StudyUidMember(f: StudyFilter, value: string)
    ensures (StudyInstanceUID, value) in FilterEntries(f) <==> DicomWeb.Given(f.studyUid) && value == f.studyUid.value
  {
    QueryTagsDistinct();
  }

  lemma AccessionNumberMember(f: StudyFilter, value: string)
    ensures (AccessionNumber, value) in FilterEntries(f)
        <==> DicomWeb.Given(f.accessionNumber) && value == f.accessionNumber.value
  {
    QueryTagsDistinct();
  }

  lemma StudyDateMember(f: StudyFilter, value: string)
    ensures (StudyDate, value) in FilterEntries(f) <==> DicomWeb.Given(f.studyDate) && value == f.studyDate.value
  {
    QueryTagsDistinct();
  }

  lemma OtherMember(f: StudyFilter, key: string, value: string)
    requires key != ModalitiesInStudy && key != PatientID && key != PatientName
    requires key != StudyInstanceUID && key != AccessionNumber && key != StudyDate
    ensures (key, value) !in FilterEntries(f)
  {
  }

  /** The first two conditional `set` calls append their pairs. */
  lemma PatientSetsAppend(f: StudyFilter)
    ensures UrlParams.SetIf(UrlParams.SetIf([(ModalitiesInStudy, "SM")],
              DicomWeb.Given(f.patientId), PatientID, f.patientId.GetOr("")),
              DicomWeb.Given(f.patientName), PatientName, f.patientName.GetOr(""))
         == [(ModalitiesInStudy, "SM")]
            + UrlParams.When(DicomWeb.Given(f.patientId), PatientID, f.patientId.GetOr(""))
            + UrlParams.When(DicomWeb.Given(f.patientName), PatientName, f.patientName.GetOr(""))
    ensures UrlParams.NamesIn([(ModalitiesInStudy, "SM")]
            + UrlParams.When(DicomWeb.Given(f.patientId), PatientID, f.patientId.GetOr(""))
            + UrlParams.When(DicomWeb.Given(f.patientName), PatientName, f.patientName.GetOr("")),
            {ModalitiesInStudy, PatientID, PatientName})
  {
    QueryTagsDistinct();
    var e := [(ModalitiesInStudy, "SM")];
    UrlParams.SetWhen(e, {ModalitiesInStudy}, DicomWeb.Given(f.patientId), PatientID, f.patientId.GetOr(""));
    e := e + UrlParams.When(DicomWeb.Given(f.patientId), PatientID, f.patientId.GetOr(""));
    UrlParams.SetWhen(e, {ModalitiesInStudy, PatientID}, DicomWeb.Given(f.patientName), PatientName, f.patientName.GetOr(""));
  }

  /** The last three conditional `set` calls append their pairs after the patient fields. */
  lemma StudySetsAppend(f: StudyFilter, e: seq<Entry>)
    requires e == [(ModalitiesInStudy, "SM")]
            + UrlParams.When(DicomWeb.Given(f.patientId), PatientID, f.patientId.GetOr(""))
            + UrlParams.When(DicomWeb.Given(f.patientName), PatientName, f.patientName.GetOr(""))
    requires UrlParams.NamesIn(e, {ModalitiesInStudy, PatientID, PatientName})
    ensures UrlParams.SetIf(UrlParams.SetIf(UrlParams.SetIf(e,
              DicomWeb.Given(f.studyUid), StudyInstanceUID, f.studyUid.GetOr("")),
              DicomWeb.Given(f.accessionNumber), AccessionNumber, f.accessionNumber.GetOr("")),
              DicomWeb.Given(f.studyDate), StudyDate, f.studyDate.GetOr(""))
         == FilterEntries(f)
  {
    QueryTagsDistinct();
    var names := {ModalitiesInStudy, PatientID, PatientName};
    var e1 := e;
    UrlParams.SetWhen(e1, names, DicomWeb.Given(f.studyUid), StudyInstanceUID, f.studyUid.GetOr(""));
    e1, names := e1 + UrlParams.When(DicomWeb.Given(f.studyUid), StudyInstanceUID, f.studyUid.GetOr("")), names + {StudyInstanceUID};
    UrlParams.SetWhen(e1, names, DicomWeb.Given(f.accessionNumber), AccessionNumber, f.accessionNumber.GetOr(""));
    e1, names := e1 + UrlParams.When(DicomWeb.Given(f.accessionNumber), AccessionNumber, f.accessionNumber.GetOr("")), names + {AccessionNumber};
    UrlParams.SetWhen(e1, names, DicomWeb.Given(f.studyDate), StudyDate, f.studyDate.GetOr(""));
  }

  /**
   * The parameters `getStudiesByFilter` sends: a new `URLSearchParams` with
   * `ModalitiesInStudy=SM`, then one `set` per non-empty filter field.
   */
  method StudySearchParams(f: StudyFilter) returns (params: UrlParams.SearchParams)
    ensures fresh(params) && params.entries == FilterEntries(f)
  {
    params := new UrlParams.SearchParams([(ModalitiesInStudy, "SM")]);
    UrlParams.SetIfPresent(params, DicomWeb.Given(f.patientId), PatientID, f.patientId.GetOr(""));
    UrlParams.SetIfPresent(params, DicomWeb.Given(f.patientName), PatientName, f.patientName.GetOr(""));
    PatientSetsAppend(f);
    ghost var e := params.entries;
    UrlParams.SetIfPresent(params, DicomWeb.Given(f.studyUid), StudyInstanceUID, f.studyUid.GetOr(""));
    UrlParams.SetIfPresent(params, DicomWeb.Given(f.accessionNumber), AccessionNumber, f.accessionNumber.GetOr(""));
    UrlParams.SetIfPresent(params, DicomWeb.Given(f.studyDate), StudyDate, f.studyDate.GetOr(""));
    StudySetsAppend(f, e);
  }

  // ---------------------------------------------------------------- the study records

  /** `DicomStudy`. A missing ModalitiesInStudy list is the empty string, written `None`. */
  datatype DicomStudy = DicomStudy(
    accessionNumber: Value,
    modalities: Option<seq<Value>>,
    patientBirthDate: Value,
    patientId: Value,
    patientName: string,
    patientSex: Value,
    studyDate: Value,
    studyUid: Value)

  /** `(json[tag]?.Value?.[0] as string) ?? ''`. */
  function FirstOrBlank(d: Dataset, tag: Tag): (r: Value)
    ensures FirstValue(d, tag).None? ==> r == Str("")
    ensures FirstValue(d, tag).Some? ==> r == FirstValue(d, tag).value
  {
    FirstValue(d, tag).GetOr(Str(""))
  }

  /** The Alphabetic component of the first PatientName value, or ''. */
  function AlphabeticName(d: Dataset): (r: string)
    ensures (match FirstValue(d, PatientName) case Some(PersonName(Some(a))) => r == a case _ => r == "")
  {
    match FirstValue(d, PatientName)
    case Some(PersonName(Some(a))) => a
    case _ => ""
  }

  /** The record a matching study becomes. */
  function StudyOf(d: Dataset): DicomStudy {
    DicomStudy(
      FirstOrBlank(d, AccessionNumber),
      if ModalitiesInStudy in d then d[ModalitiesInStudy].values else None,
      FirstOrBlank(d, PatientBirthDate),
      FirstOrBlank(d, PatientID),
      AlphabeticName(d),
      FirstOrBlank(d, PatientSex),
      FirstOrBlank(d, StudyDate),
      FirstOrBlank(d, StudyInstanceUID))
  }

  /** A study without attributes becomes a record of empty strings. */
  lemma StudyOfEmpty()
    ensures StudyOf(map[]) == DicomStudy(Str(""), None, Str(""), Str(""), "", Str(""), Str(""), Str(""))
  {
  }

  /** An attribute holding one value. */
  function Single(vr: string, v: Value): Attribute {
    Attribute(vr, Some([v]), None, None)
  }

  /** The DICOM JSON of a study that carries every field of a record. */
  function DatasetOf(s: DicomStudy): Dataset {
    var d := map[
      AccessionNumber := Single("SH", s.accessionNumber),
      PatientBirthDate := Single("DA", s.patientBirthDate),
      PatientID := Single("LO", s.patientId),
      PatientName := Single("PN", PersonName(Some(s.patientName))),
      PatientSex := Single("CS", s.patientSex),
      StudyDate := Single("DA", s.studyDate),
      StudyInstanceUID := Single("UI", s.studyUid)];
    if s.modalities.Some? then d[ModalitiesInStudy := Attribute("CS", s.modalities, None, None)] else d
  }

  /** Reading the record back from the DICOM JSON of a record gives the record. */
  lemma StudyOfDatasetOf(s: DicomStudy)
    ensures StudyOf(DatasetOf(s)) == s
  {
    DatasetOfStudyFields(s);
    DatasetOfPatientFields(s);
  }

  lemma DatasetOfStudyFields(s: DicomStudy)
    ensures var d := DatasetOf(s);
      && FirstOrBlank(d, AccessionNumber) == s.accessionNumber
      && FirstOrBlank(d, StudyDate) == s.studyDate
      && FirstOrBlank(d, StudyInstanceUID) == s.studyUid
      && (if ModalitiesInStudy in d then d[ModalitiesInStudy].values else None) == s.modalities
  {
    QueryTagsDistinct();
    var d := DatasetOf(s);
    assert d[AccessionNumber] == Single("SH", s.accessionNumber);
    assert d[StudyDate] == Single("DA", s.studyDate);
    assert d[StudyInstanceUID] == Single("UI", s.studyUid);
  }

  lemma DatasetOfPatientFields(s: DicomStudy)
    ensures var d := DatasetOf(s);
      && FirstOrBlank(d, PatientBirthDate) == s.patientBirthDate
      && FirstOrBlank(d, PatientID) == s.patientId
      && FirstOrBlank(d, PatientSex) == s.patientSex
      && AlphabeticName(d) == s.patientName
  {
    QueryTagsDistinct();
    PatientTagsDistinct();
    var d := DatasetOf(s);
    assert d[PatientBirthDate] == Single("DA", s.patientBirthDate);
    assert d[PatientID] == Single("LO", s.patientId);
    assert d[PatientSex] == Single("CS", s.patientSex);
    assert d[PatientName] == Single("PN", PersonName(Some(s.patientName)));
  }

  /** `dicomJson.map(...)`: one record per matching study, in the server's order. */
  function StudiesOf(json: seq<Dataset>): (r: seq<DicomStudy>)
    ensures |r| == |json| && forall i :: 0 <= i < |json| ==> r[i] == StudyOf(json[i])
  {
    seq(|json|, i requires 0 <= i < |json| => StudyOf(json[i]))
  }

  // ---------------------------------------------------------------- getStudyInfo

  /** One series of a study, as `getStudyInfo` summarises it; the modality is the constructor. */
  datatype SeriesSummary =
    | SmSummary(numberOfFrames: Option<real>, seriesUid: Option<string>, studyUid: string)
    | AnnSummary(graphicType: seq<Option<Value>>, seriesUid: Option<string>, studyUid: string)

  /** `toGraphicType(group)`: the GraphicType values of one annotation group. */
  function GraphicTypes(group: Value): Option<seq<Value>> {
    match group
    case Item(d) => if GraphicType in d then d[GraphicType].values else None
    case _ => None
  }

  /** `flatMap(toGraphicType)`: a group without a list contributes one undefined element. */
  function FlatGraphicTypes(groups: seq<Value>): seq<Option<Value>> {
    if groups == [] then []
    else
      (match GraphicTypes(groups[0])
       case None => [None]
       case Some(vs) => seq(|vs|, k requires 0 <= k < |vs| => Some(vs[k])))
      + FlatGraphicTypes(groups[1..])
  }

  /** A graphic type `v` is in some group's list. */
  predicate InSomeGroup(groups: seq<Value>, v: Value) {
    exists i :: 0 <= i < |groups| && GraphicTypes(groups[i]).Some? && v in GraphicTypes(groups[i]).value
  }

  /** The flattened list holds exactly the values of the groups' lists. */
  lemma {:induction false} FlatGraphicTypesMember(groups: seq<Value>, v: Value)
    ensures Some(v) in FlatGraphicTypes(groups) <==> InSomeGroup(groups, v)
  {
    if groups != [] {
      FlatGraphicTypesMember(groups[1..], v);
      var head := FlatGraphicTypes(groups)[..|FlatGraphicTypes(groups)| - |FlatGraphicTypes(groups[1..])|];
      if InSomeGroup(groups, v) {
        var i :| 0 <= i < |groups| && GraphicTypes(groups[i]).Some? && v in GraphicTypes(groups[i]).value;
        if i == 0 {
          var vs := GraphicTypes(groups[0]).value;
          var k :| 0 <= k < |vs| && vs[k] == v;
          assert FlatGraphicTypes(groups)[k] == Some(v);
        } else {
          assert groups[1..][i - 1] == groups[i];
        }
      }
      if Some(v) in FlatGraphicTypes(groups) && !InSomeGroup(groups[1..], v) {
        var k :| 0 <= k < |FlatGraphicTypes(groups)| && FlatGraphicTypes(groups)[k] == Some(v);
        assert GraphicTypes(groups[0]).Some? && GraphicTypes(groups[0]).value[k] == v;
      }
      if InSomeGroup(groups[1..], v) {
        var i :| 0 <= i < |groups[1..]| && GraphicTypes(groups[1..][i]).Some? && v in GraphicTypes(groups[1..][i]).value;
        assert groups[i + 1] == groups[1..][i];
      }
    }
  }

  /** The annotation groups of an ANN series: the AnnotationGroupSequence values, if any. */
  function AnnotationGroups(d: Dataset): Option<seq<Value>> {
    if AnnotationGroupSequence in d then d[AnnotationGroupSequence].values else None
  }

  /**
   * `[...new Set(annotations?.flatMap(toGraphicType))]`: every graphic type of every group,
   * each once, in order of first occurrence; no groups give no types.
   */
  function SeriesGraphicTypes(d: Dataset): (r: seq<Option<Value>>)
    ensures AnnotationGroups(d).None? ==> r == []
    ensures forall i, j :: 0 <= i < j < |r| ==> r[i] != r[j]
    ensures AnnotationGroups(d).Some? ==> forall v :: Some(v) in r <==> InSomeGroup(AnnotationGroups(d).value, v)
  {
    match AnnotationGroups(d)
    case None => []
    case Some(groups) =>
      assert forall v :: Some(v) in FlatGraphicTypes(groups) <==> InSomeGroup(groups, v) by {
        forall v ensures Some(v) in FlatGraphicTypes(groups) <==> InSomeGroup(groups, v) {
          FlatGraphicTypesMember(groups, v);
        }
      }
      Js.Unique(FlatGraphicTypes(groups))
  }

  /**
   * The summary of a series' metadata, for SM and ANN series only: the first values read, a
   * missing frame count or series UID as `null` (`None`), a missing study UID as ''.
   */
  function SummaryOf(d: Dataset): (r: Option<SeriesSummary>)
    ensures r.Some? && r.value.SmSummary? <==> FirstString(d, Modality) == Some("SM")
    ensures r.Some? && r.value.AnnSummary? <==> FirstString(d, Modality) == Some("ANN")
    ensures r.Some? ==> r.value.seriesUid == FirstString(d, SeriesInstanceUID)
    ensures r.Some? ==> r.value.studyUid == FirstString(d, StudyInstanceUID).GetOr("")
    ensures r.Some? && r.value.SmSummary? ==> r.value.numberOfFrames == FirstNumber(d, NumberOfFrames)
    ensures r.Some? && r.value.AnnSummary? ==> r.value.graphicType == SeriesGraphicTypes(d)
  {
    var modality := FirstString(d, Modality);
    if modality == Some("SM") then
      Some(SmSummary(FirstNumber(d, NumberOfFrames), FirstString(d, SeriesInstanceUID), FirstString(d, StudyInstanceUID).GetOr("")))
    else if modality == Some("ANN") then
      Some(AnnSummary(SeriesGraphicTypes(d), FirstString(d, SeriesInstanceUID), FirstString(d, StudyInstanceUID).GetOr("")))
    else None
  }

  /** `numberOfFrames ?? 0`. */
  function Frames(s: SeriesSummary): real {
    if s.SmSummary? && s.numberOfFrames.Some? then s.numberOfFrames.value else 0.0
  }

  /** The SM summaries of the series, in order. */
  function SmSummaries(metadata: seq<Dataset>): (r: seq<SeriesSummary>)
    ensures forall k :: 0 <= k < |r| ==> r[k].SmSummary?
  {
    if metadata == [] then []
    else
      (match SummaryOf(metadata[0]) case Some(s) => if s.SmSummary? then [s] else [] case None => [])
      + SmSummaries(metadata[1..])
  }

  /** The ANN summaries of the series, in order. */
  function AnnSummaries(metadata: seq<Dataset>): (r: seq<SeriesSummary>)
    ensures forall k :: 0 <= k < |r| ==> r[k].AnnSummary?
  {
    if metadata == [] then []
    else
      (match SummaryOf(metadata[0]) case Some(s) => if s.AnnSummary? then [s] else [] case None => [])
      + AnnSummaries(metadata[1..])
  }

  /**
   * The position of the first series with the fewest frames: what the first element of a
   * stable ascending sort by frame count is.
   */
  function FewestFrames(s: seq<SeriesSummary>): (k: nat)
    requires s != []
    ensures k < |s|
    ensures forall j :: 0 <= j < |s| ==> Frames(s[k]) <= Frames(s[j])
    ensures forall j :: 0 <= j < k ==> Frames(s[j]) > Frames(s[k])
  {
    if |s| == 1 then 0
    else
      var k := FewestFrames(s[1..]);
      if Frames(s[0]) <= Frames(s[1..][k]) then 0 else k + 1
  }

  /** The thumbnail URL of the chosen series, when it has a series UID. */
  function Thumbnail(baseUrl: string, studyUid: string, seriesUid: Option<string>): (r: Option<string>)
    ensures r.Some? <==> DicomWeb.Given(seriesUid)
  {
    if DicomWeb.Given(seriesUid) then
      Some(baseUrl + "/studies/" + studyUid + "/series/" + seriesUid.value + "/thumbnail")
    else None
  }

  /** For a non-empty study UID the thumbnail is the URI `toDicomWebUri` builds for it. */
  lemma ThumbnailUri(baseUrl: string, studyUid: string, seriesUid: string)
    requires studyUid != "" && seriesUid != ""
    ensures Thumbnail(baseUrl, studyUid, Some(seriesUid))
         == Some(DicomWeb.UriOf(baseUrl, Some(studyUid), Some(seriesUid), None, None, Some("thumbnail"), None))
  {
    DicomWeb.SlashedKeys();
    var p1 := DicomWeb.Piece("studies", Some(studyUid));
    var p2 := DicomWeb.Piece("series", Some(seriesUid));
    var p5 := DicomWeb.NameText(Some("thumbnail"));
    Js.AppendEmpty(baseUrl);
    DicomWeb.AppendStep(baseUrl, "", baseUrl, "/studies/", studyUid, p1);
    Js.EmptyAppend(p1);
    var u1 := baseUrl + "/studies/" + studyUid;
    DicomWeb.AppendStep(baseUrl, p1, u1, "/series/", seriesUid, p2);
    var u2 := u1 + "/series/" + seriesUid;
    DicomWeb.SkipStep(baseUrl, p1 + p2, u2);
    DicomWeb.SkipStep(baseUrl, p1 + p2 + "", u2);
    assert "/thumbnail" == "/" + "thumbnail";
    DicomWeb.AppendStep(baseUrl, p1 + p2 + "" + "", u2, "/", "thumbnail", p5);
    Js.Concat3(u2, "/", "thumbnail");
    Js.AppendEmpty(baseUrl + DicomWeb.PathText(Some(studyUid), Some(seriesUid), None, None, Some("thumbnail")));
  }

  /** The chosen SM series with its thumbnail. */
  datatype ChosenSm = ChosenSm(summary: SeriesSummary, thumbnail: Option<string>)

  /** `getStudyInfo` once the series metadata is fetched (the instance count is left out). */
  datatype StudyInfo = StudyInfo(sm: Option<ChosenSm>, annotations: seq<SeriesSummary>)

  function GetStudyInfo(baseUrl: string, studyUid: string, metadata: seq<Dataset>): (r: StudyInfo)
    ensures r.sm.None? <==> SmSummaries(metadata) == []
    ensures r.sm.Some? ==> r.sm.value.summary.SmSummary?
    ensures r.annotations == AnnSummaries(metadata)
  {
    var sms := SmSummaries(metadata);
    var sm := if sms == [] then None
      else
        var chosen := sms[FewestFrames(sms)];
        Some(ChosenSm(chosen, Thumbnail(baseUrl, studyUid, chosen.seriesUid)));
    StudyInfo(sm, AnnSummaries(metadata))
  }

  /**
   * The study is shown by its SM series with the fewest frames (a missing count is 0), the
   * earliest such series on a tie.
   */
  lemma GetStudyInfoSm(baseUrl: string, studyUid: string, metadata: seq<Dataset>)
    requires SmSummaries(metadata) != []
    ensures var sms := SmSummaries(metadata);
      var chosen := GetStudyInfo(baseUrl, studyUid, metadata).sm.value.summary;
      exists k :: 0 <= k < |sms| && chosen == sms[k]
        && (forall j :: 0 <= j < |sms| ==> Frames(chosen) <= Frames(sms[j]))
        && (forall j :: 0 <= j < k ==> Frames(sms[j]) > Frames(chosen))
  {
    var sms := SmSummaries(metadata);
    var k := FewestFrames(sms);
    assert GetStudyInfo(baseUrl, studyUid, metadata).sm.value.summary == sms[k];
  }

  // ---------------------------------------------------------------- sortSmImages

  /** The size key of an SM image, when its three numbers are present. */
  function SmImageKey(d: Dataset): Option<Series.SizeKey> {
    match (FirstNumber(d, TotalPixelMatrixColumns), FirstNumber(d, TotalPixelMatrixRows), FirstNumber(d, NumberOfFrames))
    case (Some(columns), Some(rows), Some(frames)) => Some(Series.SizeKey(columns * rows, frames))
    case _ => None
  }

  /** What `sortSmImages` can throw. */
  datatype Thrown = TypeError

  /**
   * `d[tag].Value![0]` reads without throwing for the three attributes: each is present and
   * carries a value list (the list may be empty, and then the read gives `undefined`).
   */
  predicate HasSizeValues(d: Dataset) {
    && TotalPixelMatrixColumns in d && d[TotalPixelMatrixColumns].values.Some?
    && TotalPixelMatrixRows in d && d[TotalPixelMatrixRows].values.Some?
    && NumberOfFrames in d && d[NumberOfFrames].values.Some?
  }

  /** The pixel area `columns * rows`, NaN (`None`) when either number is undefined. */
  function SmImageArea(d: Dataset): Option<real> {
    Series.Times(FirstNumber(d, TotalPixelMatrixColumns), FirstNumber(d, TotalPixelMatrixRows))
  }

  /**
   * `sortSmImages(a, b)`: a TypeError exactly when an attribute or its value list is missing;
   * NaN exactly when an area is NaN, or the areas are equal and a frame count is undefined
   * (an empty value list); on three numbers each, negative exactly when `a` has the smaller
   * pixel area, or the same area and fewer frames, and 0 exactly when both agree.
   */
  function SortSmImages(a: Dataset, b: Dataset): (r: Result<Option<real>, Thrown>)
    ensures r.Failure? <==> !HasSizeValues(a) || !HasSizeValues(b)
    ensures r.Success? ==> (r.value.None? <==> (SmImageArea(a).None? || SmImageArea(b).None?
      || (SmImageArea(a) == SmImageArea(b)
          && (FirstNumber(a, NumberOfFrames).None? || FirstNumber(b, NumberOfFrames).None?))))
    ensures SmImageKey(a).Some? && SmImageKey(b).Some? ==>
      && r.Success? && r.value.Some?
      && (r.value.value < 0.0 <==> Series.KeyBefore(SmImageKey(a).value, SmImageKey(b).value))
      && (r.value.value == 0.0 <==> SmImageKey(a).value == SmImageKey(b).value)
  {
    if !HasSizeValues(a) || !HasSizeValues(b) then Failure(TypeError)
    else Success(Series.CompareSizes(
      FirstNumber(a, TotalPixelMatrixColumns), FirstNumber(a, TotalPixelMatrixRows), FirstNumber(a, NumberOfFrames),
      FirstNumber(b, TotalPixelMatrixColumns), FirstNumber(b, TotalPixelMatrixRows), FirstNumber(b, NumberOfFrames)))
  }

  /** Swapping the images negates a comparison that is a number. */
  lemma SortSmImagesAntisymmetric(a: Dataset, b: Dataset)
    requires SortSmImages(a, b).Success? && SortSmImages(a, b).value.Some?
    ensures SortSmImages(b, a) == Success(Some(-SortSmImages(a, b).value.value))
  {
  }
}

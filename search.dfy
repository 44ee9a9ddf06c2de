/**
 * The studies search form's query (`src/app/search/actions.ts`): `ModalitiesInStudy=SM`
 * always, then each filled-in field under its DICOM tag, the study date with its dashes
 * removed so that `YYYY-MM-DD` becomes the DA form `YYYYMMDD` of section 6.2 of DICOM PS3.5.
 */
module Search {
  import opened Wrappers
  import Js
  import UrlParams
  import DicomJson
  import DicomWeb

  type Entry = UrlParams.Entry

  /** The submitted form: field name to text; a field that was not submitted is absent. */
  type FormData = map<string, string>

  /** `formData.get(name)`: the text, or `null`. */
  function Field(form: FormData, name: string): (r: Option<string>)
    ensures r.Some? <==> name in form
  {
    if name in form then Some(form[name]) else None
  }

  /** A field whose text is truthy: submitted and not empty. */
  predicate Filled(form: FormData, name: string) {
    DicomWeb.Given(Field(form, name))
  }

  /** The pairs the builder produces, in the order it sets them. */
  function SmEntries(form: FormData): seq<Entry> {
    IdEntries(form)
    + UrlParams.When(Filled(form, "studyDate"), DicomJson.StudyDate, Js.Remove(Field(form, "studyDate").GetOr(""), '-'))
    + UrlParams.When(Filled(form, "limit"), "limit", Field(form, "limit").GetOr(""))
    + UrlParams.When(Filled(form, "offset"), "offset", Field(form, "offset").GetOr(""))
  }

  /** The form field copied verbatim under a query name, if any. */
  function CopiedField(key: string): Option<string> {
    if key == DicomJson.PatientID then Some("patientId")
    else if key == DicomJson.PatientName then Some("patientName")
    else if key == DicomJson.StudyInstanceUID then Some("studyUid")
    else if key == DicomJson.AccessionNumber then Some("accessionNumber")
    else if key == "limit" then Some("limit")
    else if key == "offset" then Some("offset")
    else None
  }

  /** What `get(key)` on the built parameters should read, name by name. */
  function Expected(form: FormData, key: string): Option<string> {
    if key == DicomJson.ModalitiesInStudy then Some("SM")
    else if key == DicomJson.StudyDate then
      (if Filled(form, "studyDate") then Some(Js.Remove(form["studyDate"], '-')) else None)
    else match CopiedField(key)
      case None => None
      case Some(field) => if Filled(form, field) then Some(form[field]) else None
  }

  /** A pair is in the built list exactly when `Expected` gives its name that value. */
  lemma SmMember(form: FormData, key: string, value: string)
    ensures (key, value) in SmEntries(form) <==> Expected(form, key) == Some(value)
  {
    DicomJson.QueryTagsDistinct();
    if key == DicomJson.ModalitiesInStudy {
      ModalityMember(form, value);
    } else if key == DicomJson.PatientID {
      PatientIdMember(form, value);
    } else if key == DicomJson.PatientName {
      PatientNameMember(form, value);
    } else if key == DicomJson.StudyInstanceUID {
      StudyUidMember(form, value);
    } else if key == DicomJson.AccessionNumber {
      AccessionNumberMember(form, value);
    } else if key == DicomJson.StudyDate {
      StudyDateMember(form, value);
    } else if key == "limit" {
      LimitMember(form, value);
    } else if key == "offset" {
      OffsetMember(form, value);
    } else {
      OtherMember(form, key, value);
    }
  }

  /**
   * What `get(key)` reads in the built parameters: `SM` for ModalitiesInStudy, each filled-in
   * field under its name (the study date without dashes), and `null` for every other name.
   */
  lemma SmGet(form: FormData, key: string)
    ensures UrlParams.Get(SmEntries(form), key) == Expected(form, key)
  {
    forall value ensures (key, value) in SmEntries(form) <==> Expected(form, key) == Some(value) {
      SmMember(form, value := value, key := key);
    }
    UrlParams.GetByMembers(SmEntries(form), key, Expected(form, key));
  }

  lemma ModalityMember(form: FormData, value: string)
    ensures (DicomJson.ModalitiesInStudy, value) in SmEntries(form) <==> value == "SM"
  {
    DicomJson.QueryTagsDistinct();
  }

  lemma PatientIdMember(form: FormData, value: string)
    ensures (DicomJson.PatientID, value) in SmEntries(form) <==> Filled(form, "patientId") && value == form["patientId"]
  {
    DicomJson.QueryTagsDistinct();
  }

  lemma PatientNameMember(form: FormData, value: string)
    ensures (DicomJson.PatientName, value) in SmEntries(form) <==> Filled(form, "patientName") && value == form["patientName"]
  {
    DicomJson.QueryTagsDistinct();
  }

  lemma StudyUidMember(form: FormData, value: string)
    ensures (DicomJson.StudyInstanceUID, value) in SmEntries(form) <==> Filled(form, "studyUid") && value == form["studyUid"]
  {
    DicomJson.QueryTagsDistinct();
  }

  lemma AccessionNumberMember(form: FormData, value: string)
    ensures (DicomJson.AccessionNumber, value) in SmEntries(form) <==> Filled(form, "accessionNumber") && value == form["accessionNumber"]
  {
    DicomJson.QueryTagsDistinct();
  }

  lemma StudyDateMember(form: FormData, value: string)
    ensures (DicomJson.StudyDate, value) in SmEntries(form) <==> Filled(form, "studyDate") && value == Js.Remove(form["studyDate"], '-')
  {
    DicomJson.QueryTagsDistinct();
  }

  lemma LimitMember(form: FormData, value: string)
    ensures ("limit", value) in SmEntries(form) <==> Filled(form, "limit") && value == form["limit"]
  {
    DicomJson.QueryTagsDistinct();
  }

  lemma OffsetMember(form: FormData, value: string)
    ensures ("offset", value) in SmEntries(form) <==> Filled(form, "offset") && value == form["offset"]
  {
    DicomJson.QueryTagsDistinct();
  }

  lemma OtherMember(form: FormData, key: string, value: string)
    requires key != DicomJson.ModalitiesInStudy && key != DicomJson.PatientID && key != DicomJson.PatientName
    requires key != DicomJson.StudyInstanceUID && key != DicomJson.AccessionNumber && key != DicomJson.StudyDate
    requires key != "limit" && key != "offset"
    ensures (key, value) !in SmEntries(form)
  {
  }

  /** A date typed as `YYYY-MM-DD` is sent in the DA form `YYYYMMDD`. */
  lemma DashedDate(year: string, month: string, day: string)
    requires forall i :: 0 <= i < |year| ==> year[i] != '-'
    requires forall i :: 0 <= i < |month| ==> month[i] != '-'
    requires forall i :: 0 <= i < |day| ==> day[i] != '-'
    ensures Js.Remove(year + "-" + month + "-" + day, '-') == year + month + day
  {
    Js.Concat3(year + "-" + month, "-", day);
    Js.Concat3(year + "-", month, "-" + day);
    Js.Concat3(year, "-", month + ("-" + day));
    Js.KeepThenDrop(year, '-', month + ("-" + day));
    Js.KeepThenDrop(month, '-', day);
    Js.RemoveAbsent(day, '-');
    Js.Concat3(year, month, day);
  }

  /** The pairs set first: ModalitiesInStudy and the patient and study identifiers. */
  function IdEntries(form: FormData): seq<Entry> {
    [(DicomJson.ModalitiesInStudy, "SM")]
    + UrlParams.When(Filled(form, "patientId"), DicomJson.PatientID, Field(form, "patientId").GetOr(""))
    + UrlParams.When(Filled(form, "patientName"), DicomJson.PatientName, Field(form, "patientName").GetOr(""))
    + UrlParams.When(Filled(form, "studyUid"), DicomJson.StudyInstanceUID, Field(form, "studyUid").GetOr(""))
    + UrlParams.When(Filled(form, "accessionNumber"), DicomJson.AccessionNumber, Field(form, "accessionNumber").GetOr(""))
  }

  /** The first four conditional `set` calls append their pairs: no name repeats. */
  lemma IdSetsAppend(form: FormData)
    ensures UrlParams.SetIf(UrlParams.SetIf(UrlParams.SetIf(UrlParams.SetIf([(DicomJson.ModalitiesInStudy, "SM")],
              Filled(form, "patientId"), DicomJson.PatientID, Field(form, "patientId").GetOr("")),
              Filled(form, "patientName"), DicomJson.PatientName, Field(form, "patientName").GetOr("")),
              Filled(form, "studyUid"), DicomJson.StudyInstanceUID, Field(form, "studyUid").GetOr("")),
              Filled(form, "accessionNumber"), DicomJson.AccessionNumber, Field(form, "accessionNumber").GetOr(""))
         == IdEntries(form)
    ensures UrlParams.NamesIn(IdEntries(form), {DicomJson.ModalitiesInStudy, DicomJson.PatientID, DicomJson.PatientName,
                                                DicomJson.StudyInstanceUID, DicomJson.AccessionNumber})
  {
    DicomJson.QueryTagsDistinct();
    PatientSetsAppend(form);
    var e := [(DicomJson.ModalitiesInStudy, "SM")]
      + UrlParams.When(Filled(form, "patientId"), DicomJson.PatientID, Field(form, "patientId").GetOr(""))
      + UrlParams.When(Filled(form, "patientName"), DicomJson.PatientName, Field(form, "patientName").GetOr(""));
    var names := {DicomJson.ModalitiesInStudy, DicomJson.PatientID, DicomJson.PatientName};
    UrlParams.SetWhen(e, names, Filled(form, "studyUid"), DicomJson.StudyInstanceUID, Field(form, "studyUid").GetOr(""));
    e, names := e + UrlParams.When(Filled(form, "studyUid"), DicomJson.StudyInstanceUID, Field(form, "studyUid").GetOr("")), names + {DicomJson.StudyInstanceUID};
    UrlParams.SetWhen(e, names, Filled(form, "accessionNumber"), DicomJson.AccessionNumber, Field(form, "accessionNumber").GetOr(""));
  }

  /** The first two conditional `set` calls, for the patient's ID and name, append their pairs. */
  lemma PatientSetsAppend(form: FormData)
    ensures var e := [(DicomJson.ModalitiesInStudy, "SM")]
        + UrlParams.When(Filled(form, "patientId"), DicomJson.PatientID, Field(form, "patientId").GetOr(""))
        + UrlParams.When(Filled(form, "patientName"), DicomJson.PatientName, Field(form, "patientName").GetOr(""));
      && UrlParams.SetIf(UrlParams.SetIf([(DicomJson.ModalitiesInStudy, "SM")],
           Filled(form, "patientId"), DicomJson.PatientID, Field(form, "patientId").GetOr("")),
           Filled(form, "patientName"), DicomJson.PatientName, Field(form, "patientName").GetOr("")) == e
      && UrlParams.NamesIn(e, {DicomJson.ModalitiesInStudy, DicomJson.PatientID, DicomJson.PatientName})
  {
    DicomJson.QueryTagsDistinct();
    var e := [(DicomJson.ModalitiesInStudy, "SM")];
    var names := {DicomJson.ModalitiesInStudy};
    UrlParams.SetWhen(e, names, Filled(form, "patientId"), DicomJson.PatientID, Field(form, "patientId").GetOr(""));
    e, names := e + UrlParams.When(Filled(form, "patientId"), DicomJson.PatientID, Field(form, "patientId").GetOr("")), names + {DicomJson.PatientID};
    UrlParams.SetWhen(e, names, Filled(form, "patientName"), DicomJson.PatientName, Field(form, "patientName").GetOr(""));
    assert names + {DicomJson.PatientName} == {DicomJson.ModalitiesInStudy, DicomJson.PatientID, DicomJson.PatientName};
  }

  /** The last three conditional `set` calls append their pairs after the identifiers. */
  lemma SmSetsAppend(form: FormData)
    ensures UrlParams.SetIf(UrlParams.SetIf(UrlParams.SetIf(IdEntries(form),
              Filled(form, "studyDate"), DicomJson.StudyDate, Js.Remove(Field(form, "studyDate").GetOr(""), '-')),
              Filled(form, "limit"), "limit", Field(form, "limit").GetOr("")),
              Filled(form, "offset"), "offset", Field(form, "offset").GetOr(""))
         == SmEntries(form)
  {
    DicomJson.QueryTagsDistinct();
    IdSetsAppend(form);
    var e := IdEntries(form);
    var names := {DicomJson.ModalitiesInStudy, DicomJson.PatientID, DicomJson.PatientName, DicomJson.StudyInstanceUID, DicomJson.AccessionNumber};
    UrlParams.SetWhen(e, names, Filled(form, "studyDate"), DicomJson.StudyDate, Js.Remove(Field(form, "studyDate").GetOr(""), '-'));
    e, names := e + UrlParams.When(Filled(form, "studyDate"), DicomJson.StudyDate, Js.Remove(Field(form, "studyDate").GetOr(""), '-')), names + {DicomJson.StudyDate};
    UrlParams.SetWhen(e, names, Filled(form, "limit"), "limit", Field(form, "limit").GetOr(""));
    e, names := e + UrlParams.When(Filled(form, "limit"), "limit", Field(form, "limit").GetOr("")), names + {"limit"};
    UrlParams.SetWhen(e, names, Filled(form, "offset"), "offset", Field(form, "offset").GetOr(""));
  }

  /**
   * `buildSmSearchParams(formData)`: a new `URLSearchParams` with `ModalitiesInStudy=SM`,
   * then one `set` per filled-in field.
   */
  method BuildSmSearchParams(form: FormData) returns (params: UrlParams.SearchParams)
    ensures fresh(params) && params.entries == SmEntries(form)
  {
    params := new UrlParams.SearchParams([(DicomJson.ModalitiesInStudy, "SM")]);
    UrlParams.SetIfPresent(params, Filled(form, "patientId"), DicomJson.PatientID, Field(form, "patientId").GetOr(""));
    UrlParams.SetIfPresent(params, Filled(form, "patientName"), DicomJson.PatientName, Field(form, "patientName").GetOr(""));
    UrlParams.SetIfPresent(params, Filled(form, "studyUid"), DicomJson.StudyInstanceUID, Field(form, "studyUid").GetOr(""));
    UrlParams.SetIfPresent(params, Filled(form, "accessionNumber"), DicomJson.AccessionNumber, Field(form, "accessionNumber").GetOr(""));
    IdSetsAppend(form);
    UrlParams.SetIfPresent(params, Filled(form, "studyDate"), DicomJson.StudyDate, Js.Remove(Field(form, "studyDate").GetOr(""), '-'));
    UrlParams.SetIfPresent(params, Filled(form, "limit"), "limit", Field(form, "limit").GetOr(""));
    UrlParams.SetIfPresent(params, Filled(form, "offset"), "offset", Field(form, "offset").GetOr(""));
    SmSetsAppend(form);
  }
}

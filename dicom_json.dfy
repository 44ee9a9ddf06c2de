/**
 * The DICOM JSON model (annex F of DICOM PS3.18) as the viewer reads it: an object maps
 * tags to attributes, and an attribute carries its value representation and, optionally,
 * a list of values, a bulk-data URI or inline base64 data.
 */
module DicomJson {
  import opened Wrappers

  /** A tag, written as eight upper-case hexadecimal digits. */
  type Tag = string

  const ImageType: Tag := "00080008"
  const SOPInstanceUID: Tag := "00080018"
  const StudyDate: Tag := "00080020"
  const StudyTime: Tag := "00080030"
  const AccessionNumber: Tag := "00080050"
  const Modality: Tag := "00080060"
  const ModalitiesInStudy: Tag := "00080061"
  const ReferencedSeriesSequence: Tag := "00081115"
  const ReferencedInstanceSequence: Tag := "0008114A"
  const ReferencedSOPInstanceUID: Tag := "00081155"
  const PatientName: Tag := "00100010"
  const PatientID: Tag := "00100020"
  const PatientBirthDate: Tag := "00100030"
  const PatientSex: Tag := "00100040"
  const StudyInstanceUID: Tag := "0020000D"
  const SeriesInstanceUID: Tag := "0020000E"
  const StudyID: Tag := "00200010"
  const NumberOfFrames: Tag := "00280008"
  const Rows: Tag := "00280010"
  const Columns: Tag := "00280011"
  const PixelSpacing: Tag := "00280030"
  const PixelMeasuresSequence: Tag := "00289110"
  const TotalPixelMatrixColumns: Tag := "00480006"
  const TotalPixelMatrixRows: Tag := "00480007"
  const RecommendedDisplayCIELabValue: Tag := "0062000D"
  const PointCoordinatesData: Tag := "00660016"
  const LongPrimitivePointIndexList: Tag := "00660040"
  const AnnotationGroupSequence: Tag := "006A0002"
  const AnnotationGroupUID: Tag := "006A0003"
  const AnnotationGroupLabel: Tag := "006A0005"
  const NumberOfAnnotations: Tag := "006A000C"
  const GraphicType: Tag := "00700023"
  const SharedFunctionalGroupsSequence: Tag := "52009229"

  /**
   * One value of an attribute: a string, a number (with the text JavaScript renders it as),
   * a person name object, or a nested dataset (an item of a sequence).
   */
  datatype Value =
    | Str(s: string)
    | Num(n: real, text: string)
    | PersonName(alphabetic: Option<string>)
    | Item(dataset: map<Tag, Attribute>)

  datatype Attribute = Attribute(vr: string, values: Option<seq<Value>>, bulkDataUri: Option<string>, inlineBinary: Option<string>)

  type Dataset = map<Tag, Attribute>

  /** JavaScript truthiness of a value: only the empty string and the number zero are falsy. */
  predicate Truthy(v: Value) {
    match v
    case Str(s) => s != ""
    case Num(n, _) => n != 0.0
    case _ => true
  }

  /** `dataset[tag]?.Value?.[0]`: the first value of an attribute, if it has one. */
  function FirstValue(dataset: Dataset, tag: Tag): (r: Option<Value>)
    ensures r.Some? <==> tag in dataset && dataset[tag].values.Some? && |dataset[tag].values.value| > 0
  {
    if tag in dataset && dataset[tag].values.Some? && |dataset[tag].values.value| > 0
    then Some(dataset[tag].values.value[0])
    else None
  }

  /** The first value as a string, when it is one. */
  function FirstString(dataset: Dataset, tag: Tag): (r: Option<string>)
    ensures r.Some? <==> FirstValue(dataset, tag).Some? && FirstValue(dataset, tag).value.Str?
  {
    match FirstValue(dataset, tag)
    case Some(Str(s)) => Some(s)
    case _ => None
  }

  /** The first value as a number, when it is one. */
  function FirstNumber(dataset: Dataset, tag: Tag): (r: Option<real>)
    ensures r.Some? <==> FirstValue(dataset, tag).Some? && FirstValue(dataset, tag).value.Num?
  {
    match FirstValue(dataset, tag)
    case Some(Num(n, _)) => Some(n)
    case _ => None
  }

  /** The first value as a nested dataset, when it is one. */
  function FirstItem(dataset: Dataset, tag: Tag): (r: Option<Dataset>)
    ensures r.Some? <==> FirstValue(dataset, tag).Some? && FirstValue(dataset, tag).value.Item?
  {
    match FirstValue(dataset, tag)
    case Some(Item(d)) => Some(d)
    case _ => None
  }

  /** The tags of the study queries are pairwise different: their third or seventh digits differ. */
  lemma QueryTagsDistinct()
    ensures ModalitiesInStudy != PatientID && ModalitiesInStudy != PatientName
    ensures ModalitiesInStudy != StudyInstanceUID && ModalitiesInStudy != AccessionNumber
    ensures ModalitiesInStudy != StudyDate && PatientID != PatientName
    ensures PatientID != StudyInstanceUID && PatientID != AccessionNumber
    ensures PatientID != StudyDate && PatientName != StudyInstanceUID
    ensures PatientName != AccessionNumber && PatientName != StudyDate
    ensures StudyInstanceUID != AccessionNumber && StudyInstanceUID != StudyDate
    ensures AccessionNumber != StudyDate
    ensures |ModalitiesInStudy| == |PatientID| == |PatientName| == 8
    ensures |StudyInstanceUID| == |AccessionNumber| == |StudyDate| == 8
  {
    assert ModalitiesInStudy[2] == '0' && ModalitiesInStudy[6] == '6';
    assert AccessionNumber[2] == '0' && AccessionNumber[6] == '5';
    assert StudyDate[2] == '0' && StudyDate[6] == '2';
    assert PatientID[2] == '1' && PatientID[6] == '2';
    assert PatientName[2] == '1' && PatientName[6] == '1';
    assert StudyInstanceUID[2] == '2';
  }

  /** The patient birth date and sex tags differ from each other and from the query tags. */
  lemma PatientTagsDistinct()
    ensures PatientBirthDate != PatientSex
    ensures PatientBirthDate !in {ModalitiesInStudy, PatientID, PatientName, StudyInstanceUID, AccessionNumber, StudyDate}
    ensures PatientSex !in {ModalitiesInStudy, PatientID, PatientName, StudyInstanceUID, AccessionNumber, StudyDate}
  {
    QueryTagsDistinct();
    assert PatientBirthDate[2] == '1' && PatientBirthDate[6] == '3';
    assert PatientSex[2] == '1' && PatientSex[6] == '4';
  }
}

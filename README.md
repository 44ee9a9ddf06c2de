# A verified model of the mainecoon slide viewer core

This project models, in Dafny, the core of **mainecoon**, a web viewer for whole-slide
microscopy images held on a DICOMweb server. It covers the parts that decide what the
viewer asks for and what it draws:

- **Retrieve and search requests.** `DicomWeb`, `UrlParams`, `Search` and `Studies` model how
  Retrieve and Search URIs are assembled and how query parameters are serialized. They also
  model what a study record and its SM series look like.
- **Decoding.** `Multipart` models the multipart/related codec. `Base64` models `atob`. `Vr`
  models decoding of the binary value representations (OL, OF, OD) and the display formats
  for DA, TM, PN and patient sex. `DicomJson` models DICOM JSON lookups.
- **Series and the tile pyramid.** `Series` classifies series and orders SM instances.
  `Pyramid` and `ViewerMap` model the tile pyramid built from those instances: tile grids,
  zoom factors and frame numbers.
- **Annotation state.** `AnnotationState` and `AnnotationLoad` model the annotation map and
  its reducer, and the loader that fills it from the study's ANN (bulk simple annotation)
  series.
- **Annotation geometry.** `Geometry` models how point and index lists become points,
  polylines, polygon rings, rectangles and ellipses. The pieces are added to a vector source
  in batches of at most 10001.
- **Annotation layers.** `AnnotationLayers` is the reconciliation pass that keeps one vector
  layer per annotation group, and the single draw interaction. `LegacyViewer` is the older
  copy of those hooks in `src/app/viewer/annotation.ts`.
- **The microscopy viewer's reader.** `Features` models its own annotation reader.
- **Server configuration.** `ServerConfig` models the DICOMweb server table, read from
  configuration.

The code is modelled in the form it takes in the source:

- Pure helpers are functions over datatypes.
- Loops are methods with invariants, each proved against a reference function. The
  reference functions have their own lemmas: round trips, coverage, closedness and order.
- Objects whose fields are updated become classes with `modifies` frames: the reducer's
  store, the layer hooks and the pyramid arrays.

JavaScript values are modelled explicitly:

- A property may be absent or `undefined`; the `Prop` type has cases for both.
- A thrown exception becomes a `Result` failure or a `thrown` flag.
- A `Uint32Array` store is taken modulo 2^32.
- Iteration orders that the program leaves to the engine become parameters.

Some of the code's behaviour may surprise a reader of the code; the model keeps it as written:

- A POLYLINE or POLYGON group without a point index list makes `fetchAnnotationSource` throw,
  in both copies of the layer hook. Only the microscopy viewer's reader skips such an
  annotation.
- In a POLYGON, each index is halved before use. An index list `[1, 7]` over six coordinates
  therefore gives the rings of coordinates 0–2 and 3–5.
- An ellipse is drawn through 50 computed points. The ring is not closed with its first point.
  Only the drawing tool's `createEllipse` closes its 64-point ring.
- The pyramid lists the smallest image first. Resolution index 0 is the coarsest level, and
  the last level is the base, with zoom factor 1.
- `update` on a series that is not in the map throws a TypeError; it is not a no-op.
- The older layer pass returns early on an empty annotation map. The layers of groups that
  have all gone therefore stay on the map.
- A missing size or frame count makes `sortImagingInfo` return NaN, which the sort reads as
  "equal". The copy in map.ts throws a TypeError instead when the attribute itself is absent.
- Loading a slide replaces the map's layers, so the annotation layers the hook still holds are
  off the map until the next pass adds them back.
- The unmount cleanup empties the layer array it captured at mount. Once a pass has pruned a
  layer, the hook holds a new array, and the cleanup leaves that one as it is.

## Model

| member | source | states |
|---|---|---|
| Base64.Atob | src/lib/dicom-web/vr.ts:13 | after ASCII whitespace and one or two trailing `=` are dropped, fails with `InvalidCharacterError` exactly when a character is outside the alphabet or the length is 1 modulo 4 |
| Base64.Encode | src/lib/dicom-web/vr.ts:13 | the padded encoding of RFC 4648 section 4, whose length is a multiple of four |
| Base64.AtobEncode | src/lib/dicom-web/vr.ts:13 | round trip: `atob` of the encoding of any bytes gives those bytes |
| Base64.DecodeEncodeSextets | src/lib/microscopy-viewer/annotation.ts:11 | decoding the sextets of any bytes gives the bytes back |
| Base64.EncodeNoWhitespace | src/lib/microscopy-viewer/annotation.ts:34 | an encoding contains no whitespace, so `atob` drops nothing from it |
| Base64.EncodePadding | src/lib/microscopy-viewer/annotation.ts:34 | removing the padding of an encoding leaves exactly the characters of its sextets |
| Base64.SextetOfCharOf | src/lib/dicom-web/vr.ts:13 | the alphabet is a bijection: each sextet's character decodes to that sextet |
| Base64.CharOfSextetOf | src/lib/dicom-web/vr.ts:13 | every character that decodes is the character of its sextet |
| Multipart.Uint8ArrayToString | src/lib/utils/multipart.ts:9-17 | the string holds one character per byte from `offset`, `limit` bytes, where a zero or missing limit means up to the end |
| Multipart.StringToUint8Array | src/lib/utils/multipart.ts:25-31 | the array holds each character code modulo 256, one per character |
| Multipart.StringRoundTrip | src/lib/utils/multipart.ts:9-31 | converting a string whose codes are all below 256 to bytes and back gives the string |
| Multipart.IdentifyBoundary | src/lib/utils/multipart.ts:39-46 | returns the first header line that starts with `--`, and nothing when no line does |
| Multipart.ContainsToken | src/lib/utils/multipart.ts:56-67 | true exactly when the token fits at the offset and every byte matches, so an empty token matches at any offset within the data |
| Multipart.FirstTokenLeast | src/lib/utils/multipart.ts:78-95 | the position found is the least occurrence in the range, and -1 means there is no occurrence in it |
| Multipart.FindToken | src/lib/utils/multipart.ts:78-95 | the least position in `[offset, searchEnd)` where the token occurs, or -1; the end is `offset + maxSearchLength` capped at the length, or the length when no maximum is given; an empty token is never found, because its `token[0]` is undefined |
| Multipart.Set | src/lib/utils/multipart.ts:136-141 | `target.set(source, position)` overwrites exactly those bytes and leaves the rest; it throws RangeError when the source does not fit |
| Multipart.PartsLength | src/lib/utils/multipart.ts:124-130 | the total length is the sum over the parts of header, part and footer lengths |
| Multipart.WriteParts | src/lib/utils/multipart.ts:132-139 | after the pass the buffer holds every part, each after a header, followed by zeros |
| Multipart.FooterRoom | src/lib/utils/multipart.ts:124-141 | the final footer fits exactly when there is at least one dataset, so zero datasets throw RangeError |
| Multipart.MultipartEncode | src/lib/utils/multipart.ts:111-147 | the body is every dataset preceded by `\r\n--boundary\r\nContent-Type: …\r\n\r\n`, then the footer `\r\n--boundary--`; zero datasets throw RangeError |
| Multipart.DecodeParts | src/lib/utils/multipart.ts:174-188 | the part loop returns the parts that the round-by-round definition `Decoded` yields |
| Multipart.MultipartDecode | src/lib/utils/multipart.ts:155-189 | throws when no `\r\n\r\n` starts in the first 1000 bytes, or when the header has no `--` line; otherwise returns the parts found between boundary occurrences |
| Multipart.DecodeMissingHeader | src/lib/utils/multipart.ts:159-163 | decoding throws 'no multipart mime header' exactly when no separator starts in the first 1000 bytes |
| Multipart.DecodeMissingBoundary | src/lib/utils/multipart.ts:165-169 | decoding throws 'does not specify boundary' exactly when the header has a separator but no line starting with `--` |
| Multipart.BoundaryOfHeader | src/lib/utils/multipart.ts:117-171 | the decoder reads back, as the boundary, the boundary line that the encoder wrote into the first header |
| Multipart.PartsOfLayout | src/lib/utils/multipart.ts:177-186 | decoding from the start of any part of an encoded body yields that part and every part after it |
| Multipart.DecodeEncode | src/lib/utils/multipart.ts:111-189 | round trip: decoding the encoding of one or more datasets gives the datasets back, when boundary and content type are single-byte text without CR and the header ends within the 1000-byte window and no dataset contains the boundary token |
| DicomJson.FirstValue | src/lib/dicom-web/series.ts:17 | `dataset[tag]?.Value?.[0]` exists exactly when the attribute is present and has a non-empty value list |
| DicomJson.QueryTagsDistinct | src/lib/dicom-web/tag.ts:4-17 | the six study query tags are pairwise different eight-digit tags, so the query's keys never collide |
| DicomJson.PatientTagsDistinct | src/lib/dicom-web/tag.ts:12-16 | the birth date and sex tags differ from each other and from the query tags |
| UrlParams.Get | src/app/search/actions.ts:9-16 | `get(name)` is present exactly when some pair has the name, and its value is the value of such a pair |
| UrlParams.Without | src/app/search/actions.ts:10-16 | no pair of the name is left, and every pair with another name is kept |
| UrlParams.GetAfterSet | src/app/search/actions.ts:10-16 | after `set(name, value)`, `get(name)` is `value` and every other name reads as before |
| UrlParams.SetNewName | src/app/search/actions.ts:10-16 | setting a name that is not yet present appends its pair at the end and keeps the earlier order |
| UrlParams.NamesAfterSet | src/app/search/actions.ts:10-16 | the names after `set` are the names before plus the name set |
| UrlParams.GetConcat | src/app/search/actions.ts:9-16 | `get` on two lists one after the other: the first list answers when it has the name |
| UrlParams.GetByMembers | src/app/search/actions.ts:9-16 | when every pair with a name carries the same value, `get` reads that value, and null when there is no such pair |
| UrlParams.GetWhen | src/app/search/actions.ts:10-16 | appending a conditional pair: only a name that was not there before reads the new value |
| UrlParams.GetSkip | src/app/search/actions.ts:10-16 | a conditional pair that is absent or has another name leaves `get` unchanged |
| UrlParams.SetWhen | src/app/search/actions.ts:10-16 | a conditional `set` of a new name appends its pair, and the names grow by at most that name |
| UrlParams.Utf8 | src/lib/dicom-web/index.ts:52 | the UTF-8 encoding of a character: one byte exactly below 0x80, else a lead byte and continuation bytes |
| UrlParams.EncodeByte | src/lib/dicom-web/index.ts:52 | an unreserved byte is kept, a space becomes `+`, any other byte becomes `%` and two hex digits |
| UrlParams.EncodeBytesAppend | src/lib/dicom-web/index.ts:52 | serializing bytes distributes over concatenation |
| UrlParams.EncodeBytesSafe | src/lib/dicom-web/index.ts:52 | serialized text holds no `&` or `=`, so a query splits back into its pairs |
| UrlParams.DecodeEncodeBytes | src/lib/dicom-web/index.ts:52 | round trip: percent-decoding the serialized bytes gives the bytes back |
| UrlParams.EncodeUnreserved | src/lib/dicom-web/index.ts:52 | tags, UIDs and `SM`, made of unreserved characters, are serialized unchanged |
| UrlParams.SplitSerialized | src/lib/dicom-web/index.ts:52 | splitting a non-empty serialization at `&` gives one `name=value` piece per pair, in order |
| UrlParams.SearchParams.constructor | src/lib/dicom-web/index.ts:50 | `new URLSearchParams(init)` holds the pairs of `init` in order |
| UrlParams.SearchParams.Set | src/app/search/actions.ts:10-16 | the pairs become those of `set(name, value)` on the old pairs |
| UrlParams.SearchParams.ToString | src/lib/dicom-web/index.ts:52 | `toString()` of a non-empty list splits at `&` into the encoded pairs |
| UrlParams.SetIfPresent | src/app/search/actions.ts:10-16 | `if (present) params.set(key, value)`: the pairs become the conditional `set` of the old pairs |
| DicomWeb.NatValueOfText | src/lib/dicom-web/index.ts:46 | the decimal digits printed for a frame number read back as that number |
| DicomWeb.JoinPath | src/lib/dicom-web/index.ts:43-47 | a non-empty path starts with a slash |
| DicomWeb.Piece | src/lib/dicom-web/index.ts:43-45 | one step appends `/key/value` for a truthy value and nothing otherwise, which is the joined path of its segments |
| DicomWeb.FrameText | src/lib/dicom-web/index.ts:46 | the frame step appends `/frames/N`, and nothing for a missing or zero frame number |
| DicomWeb.NameText | src/lib/dicom-web/index.ts:47 | the name step appends `/name`, and nothing for a missing or empty name |
| DicomWeb.PathTextJoined | src/lib/dicom-web/index.ts:43-47 | the path is its segments, each after a slash |
| DicomWeb.SplitJoinPath | src/lib/dicom-web/index.ts:43-47 | when no segment holds a slash, splitting the path at `/` gives the segments back |
| DicomWeb.SplitPathText | src/lib/dicom-web/index.ts:43-47 | splitting the path at `/` gives an empty piece and then exactly the given components after their keys, in order |
| DicomWeb.FullPath | src/lib/dicom-web/index.ts:43-47 | with every component given, the path is `/studies/S/series/Se/instances/I/frames/F/name` and splits back into those components |
| DicomWeb.FrameZeroOmitted | src/lib/dicom-web/index.ts:46 | frame number 0 is falsy, so the URI is the same as with no frame number |
| DicomWeb.QueryAtEnd | src/lib/dicom-web/index.ts:48-53 | with search parameters the URI ends in `?` and a serialization whose `&`-pieces are the pairs |
| DicomWeb.AppendPath | src/lib/dicom-web/index.ts:42-47 | the URI is the base URL followed by the path of the truthy components |
| DicomWeb.AppendSegment | src/lib/dicom-web/index.ts:43-45 | a study, series or instance UID is appended after its key exactly when it is a non-empty string |
| DicomWeb.AppendFrame | src/lib/dicom-web/index.ts:46 | a frame number is appended after `frames` unless it is absent or 0 |
| DicomWeb.AppendName | src/lib/dicom-web/index.ts:47 | a non-empty name is appended after a slash |
| DicomWeb.ToDicomWebUri | src/lib/dicom-web/index.ts:41-55 | the URI is the base URL, the path, and `?` with the serialized parameters when given; a given `searchParams` is replaced in the options by a new `URLSearchParams` with the same pairs |
| DicomWeb.JoinPathAppend | src/lib/dicom-web/index.ts:43-47 | the path of appended segments is the two paths one after the other |
| DicomWeb.Dicom | src/lib/dicom-web/index.ts:79-101 | `$dicom` gives '' for no object or no tags, and '' when the first tag's first value is missing or falsy |
| DicomWeb.DicomAppend | src/lib/dicom-web/index.ts:95-97 | a longer path looks up its last tags in the nested dataset its first tags lead to, and gives '' when that path breaks |
| DicomWeb.DicomSingle | src/lib/dicom-web/index.ts:99-100 | with one tag whose first value is truthy, `$dicom` formats that value by the attribute's value representation |
| Search.Field | src/app/search/actions.ts:7 | `formData.get(name)` is present exactly when the form has the field |
| Search.SmMember | src/app/search/actions.ts:9-16 | a pair is in the built parameters exactly when the expected value of its name is that value |
| Search.SmGet | src/app/search/actions.ts:9-18 | `get` reads `SM` for ModalitiesInStudy, each filled-in field under its tag or name (the study date without dashes), and null for every other name |
| Search.ModalityMember | src/app/search/actions.ts:9 | the only ModalitiesInStudy pair is `SM` |
| Search.PatientIdMember | src/app/search/actions.ts:10 | a PatientID pair is present exactly when the field is filled in, with its text |
| Search.PatientNameMember | src/app/search/actions.ts:11 | a PatientName pair is present exactly when the field is filled in, with its text |
| Search.StudyUidMember | src/app/search/actions.ts:12 | a StudyInstanceUID pair is present exactly when the field is filled in, with its text |
| Search.AccessionNumberMember | src/app/search/actions.ts:13 | an AccessionNumber pair is present exactly when the field is filled in, with its text |
| Search.StudyDateMember | src/app/search/actions.ts:14 | a StudyDate pair is present exactly when the field is filled in, with its dashes removed |
| Search.LimitMember | src/app/search/actions.ts:15 | a `limit` pair is present exactly when the field is filled in, with its text |
| Search.OffsetMember | src/app/search/actions.ts:16 | an `offset` pair is present exactly when the field is filled in, with its text |
| Search.OtherMember | src/app/search/actions.ts:9-16 | no other name has a pair |
| Search.DashedDate | src/app/search/actions.ts:14 | a date typed as `YYYY-MM-DD` is sent as `YYYYMMDD` |
| Search.IdSetsAppend | src/app/search/actions.ts:9-13 | the first four conditional `set` calls append their pairs, because no name repeats |
| Search.PatientSetsAppend | src/app/search/actions.ts:9-11 | the patient ID and name `set` calls append their pairs after `SM`, and only those three names occur |
| Search.SmSetsAppend | src/app/search/actions.ts:14-16 | the last three conditional `set` calls append their pairs after the identifiers |
| Search.BuildSmSearchParams | src/app/search/actions.ts:6-19 | returns a new `URLSearchParams` holding exactly the pairs above, in the order they are set |
| Vr.BinaryString | src/lib/dicom-web/vr.ts:13-18 | the string `atob` returns has one character per byte, whose code is that byte |
| Vr.CharCodesOfBinaryString | src/lib/dicom-web/vr.ts:15-18 | the `charCodeAt` loop recovers exactly the decoded bytes |
| Vr.Groups | src/lib/dicom-web/vr.ts:26-31 | a typed view cuts the buffer into consecutive groups of 4 or 8 bytes |
| Vr.GroupsFlatten | src/lib/dicom-web/vr.ts:26-31 | the groups laid end to end are the buffer |
| Vr.Words32 | src/lib/dicom-web/vr.ts:27 | `new Uint32Array(buffer)` has one word per four bytes, word `k` made of bytes `4k` to `4k + 3` |
| Vr.View | src/lib/dicom-web/vr.ts:25-34 | the typed view throws RangeError exactly when an OL or OF buffer is not a multiple of 4 bytes, or an OD buffer not a multiple of 8 |
| Vr.DecodeValue | src/lib/dicom-web/vr.ts:5-35 | returns or throws what `DecodedValue` gives: `null` for a falsy value, inline base64 decoded or the first bulk buffer, then viewed by value representation |
| Vr.DecodeInlineWords | src/lib/dicom-web/vr.ts:12-27 | inline OL data decodes to the 32-bit words of the bytes it encodes, and to `null` when there are none |
| Vr.DecodeInvalidInline | src/lib/dicom-web/vr.ts:12-13 | inline data that is not base64 makes `decodeValue` throw InvalidCharacterError for every value representation |
| Vr.TwoDigits | src/lib/dicom-web/vr.ts:54-59 | two decimal digits stand for a number from 0 to 99 |
| Vr.StringOrderOfTwoDigits | src/lib/dicom-web/vr.ts:54-59 | on two-digit strings, string comparison is numeric comparison |
| Vr.MatchTime | src/lib/dicom-web/vr.ts:49 | a match of `^(\d{2})(\d{2})(\d{2})(\.(\d{1,6}))?$` has three two-digit fields and at most six fraction digits |
| Vr.ValidTimeNumeric | src/lib/dicom-web/vr.ts:48-60 | the pattern and string checks accept exactly hours 00-23, minutes 00-59 and seconds 00-60; the leap-second clause adds nothing |
| Vr.TimeText | src/lib/dicom-web/vr.ts:63 | the output for a valid time has a colon at positions 2 and 5 and starts and ends with a digit |
| Vr.FormatTimeCases | src/lib/dicom-web/vr.ts:39-69 | a valid trimmed time is rewritten as `HH:MM:SS` (plus the fraction when precise), and anything else is returned exactly as given, whitespace included |
| Vr.SecondsSixtyAnywhere | src/lib/dicom-web/vr.ts:59 | seconds `60` pass at any hour and minute, not only at 23:59 |
| Vr.SixtyValid | src/lib/dicom-web/vr.ts:59 | `000060` is a valid time |
| Vr.FormatTimePrecise | src/lib/dicom-web/vr.ts:63 | round trip: with `precise`, removing the colons of a formatted valid time gives back the trimmed input |
| Vr.TimeTextParts | src/lib/dicom-web/vr.ts:63 | the precise text is the three two-digit fields joined by colons, with the fraction after the seconds |
| Vr.NoColonInTime | src/lib/dicom-web/vr.ts:49 | a valid time holds no colon |
| Vr.ColonTextUnchanged | src/lib/dicom-web/vr.ts:49-68 | text with a colon at position 2 never matches the pattern and is returned as given |
| Vr.FormatTimeIdempotent | src/lib/dicom-web/vr.ts:39-69 | formatting a formatted time changes nothing |
| Vr.FirstDateRun | src/lib/dicom-web/vr.ts:72 | finds the leftmost start of eight digits, with none before it |
| Vr.FormatDateNoRun | src/lib/dicom-web/vr.ts:71-73 | without eight consecutive digits the date is returned as it is |
| Vr.FormatDateInsertsSlashes | src/lib/dicom-web/vr.ts:71-73 | the result is the input with slashes inserted after the fourth and sixth digit of the first eight-digit run, and deleting them gives the input back |
| Vr.FormatPersonName | src/lib/dicom-web/vr.ts:75-77 | shows a name exactly when the value is a person name with an `Alphabetic` component, and `undefined` otherwise |
| Vr.FormatPatientSex | src/lib/dicom-web/vr.ts:79-81 | M, F and O are spelt out as Male, Female and Other; any other CS code is returned as given |
| Vr.SexCodeOfFormat | src/lib/dicom-web/vr.ts:79-81 | round trip: a spelt-out code reads back as the code it came from |
| Vr.FormatValueOutcomes | src/lib/dicom-web/vr.ts:83-96 | '' for a falsy value; throws exactly for a truthy non-string DA or TM value; `undefined` exactly for a truthy PN value without an alphabetic name |
| Series.CompareKeys | src/lib/dicom-web/series.ts:51-53 | negative exactly when `a` has the smaller area, or the same area and fewer frames; 0 exactly when both keys agree |
| Series.CompareKeysAntisymmetric | src/lib/dicom-web/series.ts:49-54 | swapping the arguments negates the comparison |
| Series.CompareKeysPreorder | src/lib/dicom-web/series.ts:49-54 | the comparator is total and transitive, so it is a consistent sort order |
| Series.CompareSizes | src/lib/dicom-web/series.ts:51-53 | the comparison on numbers that may be `undefined`: NaN exactly when an area is NaN, or the areas are equal and a frame count is undefined; on defined numbers, the size-key comparison |
| Series.Compare | src/lib/dicom-web/series.ts:49-54 | `sortImagingInfo` is 0 when either side is undefined; NaN exactly when an area is NaN or the areas tie with a frame count undefined; on complete infos, negative exactly when `a` is smaller by area, then by frame count, and 0 exactly when both keys agree |
| Series.IncompleteNotTransitive | src/lib/dicom-web/series.ts:49-54 | with a row count undefined, `a` may precede `b` and `b` may precede `c` while `a` must follow `c`: the comparator is not a consistent order |
| Series.Insert | src/lib/dicom-web/series.ts:77 | one insertion step keeps the elements, as a multiset, plus the inserted one |
| Series.InsertSorted | src/lib/dicom-web/series.ts:77 | inserting a complete info into a sorted list of complete infos keeps it sorted |
| Series.SortInfos | src/lib/dicom-web/series.ts:77 | `toSorted` returns a permutation of its input |
| Series.SortInfosSorted | src/lib/dicom-web/series.ts:77 | when every info's numbers are defined, `toSorted` returns its input in ascending size order |
| Series.IncompleteKeepsOrder | src/lib/dicom-web/series.ts:49-77 | a large info ahead of one whose row count is undefined stays ahead, since their comparison is NaN, read as "equal" |
| Series.InfoOf | src/lib/dicom-web/series.ts:61-75 | an instance gives an info exactly when its modality is SM, carrying its SOP instance UID and the first values of its frame count, columns and total pixel-matrix sizes, each `undefined` when missing |
| Series.SmInfos | src/lib/dicom-web/series.ts:61-77 | `filter(Boolean)` keeps at most one info per instance, each of modality SM |
| Series.SmInfosMember | src/lib/dicom-web/series.ts:61-77 | an info is kept exactly when some SM instance's metadata produces it |
| Series.SmInfosKeeps | src/lib/dicom-web/series.ts:61-77 | the info of every SM instance is kept |
| Series.SmInfosSource | src/lib/dicom-web/series.ts:61-77 | every info kept comes from some SM instance |
| Series.SmInfosComplete | src/lib/dicom-web/series.ts:61-77 | when every SM instance defines its sizes and frame count, every info kept is complete |
| Series.GetImagingInfo | src/lib/dicom-web/series.ts:56-78 | the result is a permutation of the SM instances' infos |
| Series.GetImagingInfoSpec | src/lib/dicom-web/series.ts:56-78 | the result holds exactly the infos of the SM instances, every one of modality SM; when every SM instance defines its sizes and frame count, it is in ascending size order |
| Series.GetSeriesInfo | src/lib/dicom-web/series.ts:9-32 | null for no metadata; an SM entry exactly when the first instance's modality is SM; an ANN entry exactly when it is ANN, reporting its SeriesInstanceUID or '' |
| Studies.FilterMember | src/lib/dicom-web/studies.ts:29-34 | a pair is in the query exactly when the expected value of its name is that value |
| Studies.FilterGet | src/lib/dicom-web/studies.ts:29-34 | `get` reads `SM` for ModalitiesInStudy, each non-empty filter field verbatim under its tag, and null for every other name |
| Studies.ModalityMember | src/lib/dicom-web/studies.ts:29 | the only ModalitiesInStudy pair is `SM` |
| Studies.PatientIdMember | src/lib/dicom-web/studies.ts:30 | a PatientID pair is present exactly when the filter has a non-empty patient ID, with that text |
| Studies.PatientNameMember | src/lib/dicom-web/studies.ts:31 | a PatientName pair is present exactly when the filter has a non-empty patient name, with that text |
| Studies.StudyUidMember | src/lib/dicom-web/studies.ts:32 | a StudyInstanceUID pair is present exactly when the filter has a non-empty study UID, with that text |
| Studies.AccessionNumberMember | src/lib/dicom-web/studies.ts:33 | an AccessionNumber pair is present exactly when the filter has a non-empty accession number, with that text |
| Studies.StudyDateMember | src/lib/dicom-web/studies.ts:34 | a StudyDate pair is present exactly when the filter has a non-empty date, with that text unchanged |
| Studies.OtherMember | src/lib/dicom-web/studies.ts:29-34 | no other name has a pair |
| Studies.PatientSetsAppend | src/lib/dicom-web/studies.ts:30-31 | the first two conditional `set` calls append their pairs |
| Studies.StudySetsAppend | src/lib/dicom-web/studies.ts:32-34 | the last three conditional `set` calls append their pairs after the patient fields |
| Studies.StudySearchParams | src/lib/dicom-web/studies.ts:29-34 | returns a new `URLSearchParams` holding exactly the pairs of the filter, in the order they are set |
| Studies.FirstOrBlank | src/lib/dicom-web/studies.ts:39-47 | `(json[tag]?.Value?.[0]) ?? ''`: the first value when there is one, '' otherwise |
| Studies.AlphabeticName | src/lib/dicom-web/studies.ts:43 | the Alphabetic component of the first PatientName value, or '' |
| Studies.StudyOfEmpty | src/lib/dicom-web/studies.ts:38-48 | a study without attributes becomes a record of empty strings |
| Studies.StudyOfDatasetOf | src/lib/dicom-web/studies.ts:38-48 | round trip: reading a record back from the DICOM JSON carrying its fields gives the record |
| Studies.StudiesOf | src/lib/dicom-web/studies.ts:38-48 | one record per matching study, in the server's order |
| Studies.FlatGraphicTypesMember | src/lib/dicom-web/studies.ts:66-94 | the flattened list holds exactly the values of the groups' graphic type lists |
| Studies.SeriesGraphicTypes | src/lib/dicom-web/studies.ts:90-94 | every graphic type of every group, each once; no groups give no types |
| Studies.SummaryOf | src/lib/dicom-web/studies.ts:79-99 | a series gives an SM summary exactly when its modality is SM, an ANN summary exactly when it is ANN, and nothing otherwise; the series UID is the first value or `null`, the study UID the first value or '', an SM summary's frame count the first value or `null`, and an ANN summary's graphic types those of its annotation groups without repeats |
| Studies.SmSummaries | src/lib/dicom-web/studies.ts:101-102 | only SM summaries are kept |
| Studies.AnnSummaries | src/lib/dicom-web/studies.ts:112 | only ANN summaries are kept |
| Studies.FewestFrames | src/lib/dicom-web/studies.ts:101-103 | the first position with the fewest frames (a missing count is 0), which is where a stable ascending sort puts its first element |
| Studies.Thumbnail | src/lib/dicom-web/studies.ts:106 | there is a thumbnail exactly when the series UID is truthy |
| Studies.ThumbnailUri | src/lib/dicom-web/studies.ts:106 | for non-empty UIDs the thumbnail is the URI `toDicomWebUri` builds for the series' `thumbnail` endpoint |
| Studies.GetStudyInfo | src/lib/dicom-web/studies.ts:74-114 | there is an SM choice exactly when the study has an SM series, and the annotations are the ANN summaries |
| Studies.GetStudyInfoSm | src/lib/dicom-web/studies.ts:101-108 | the chosen series is an SM series with the fewest frames, the earliest one on a tie |
| Studies.SortSmImages | src/lib/dicom-web/studies.ts:123-133 | throws a TypeError exactly when an image lacks TotalPixelMatrixColumns, TotalPixelMatrixRows or NumberOfFrames, or its `Value`; NaN exactly when an area is NaN, or the areas are equal and a frame count is undefined (an empty `Value`); with all three numbers of both images, negative exactly when `a` has the smaller area, or the same area and fewer frames, and 0 exactly when both keys agree |
| Studies.SortSmImagesAntisymmetric | src/lib/dicom-web/studies.ts:123-133 | swapping the images negates a comparison that is a number |
| ServerConfig.SplitSingle | src/config/dicom-web.ts:10-11 | an entry without `=` splits into the one piece that is the entry itself |
| ServerConfig.NameAndUrl | src/config/dicom-web.ts:10-11 | `[name, url]` is the first two `=`-pieces of an entry that has `=`; for one without, the host of the entry read as a URL and the entry itself; it throws exactly when such an entry is not a URL |
| ServerConfig.KeyOf | src/config/dicom-web.ts:14 | a non-empty name is the key; otherwise the URL's origin, and it throws exactly when the URL does not parse |
| ServerConfig.StepKeys | src/config/dicom-web.ts:10-14 | a step that succeeds keeps every key and the `default` entry already there, and adds the entry's key and `default` when it was missing |
| ServerConfig.Entries | src/config/dicom-web.ts:8-9 | an unset or empty setting still yields at least one entry |
| ServerConfig.LoadServers | src/config/dicom-web.ts:5-18 | the initialiser returns the table, or the error it throws, that the entry-by-entry definition `Load` gives |
| ServerConfig.LoadKeepsKeys | src/config/dicom-web.ts:9-15 | a successful load keeps every key of the table it starts from |
| ServerConfig.DuplicateNameFails | src/config/dicom-web.ts:12 | two entries with the same non-empty name make the load throw |
| ServerConfig.LoadBlocksName | src/config/dicom-web.ts:12 | an entry whose name is already a key makes the load throw |
| ServerConfig.LoadKeepsDefault | src/config/dicom-web.ts:13 | once `default` is set, later entries leave it alone |
| ServerConfig.DefaultIsFirst | src/config/dicom-web.ts:13 | after a successful load, `default` holds the first entry's name, URL and text |
| ServerConfig.EveryEntryStored | src/config/dicom-web.ts:9-15 | after a successful load every entry parses and its key is in the table |
| ServerConfig.EmptySettingFails | src/config/dicom-web.ts:8-11 | an unset or empty setting is one empty entry, which is no URL, so loading throws |
| ServerConfig.NamedEntry | src/config/dicom-web.ts:10-11 | `name=url` with no `=` in either part names the server `name` at `url` |
| ServerConfig.NamelessOverwrite | src/config/dicom-web.ts:12-14 | two nameless entries with the same origin load without an error, and the second replaces the first under that origin |
| ServerConfig.StepByKeyKeeps | src/config/dicom-web.ts:12-14 | with the duplicate check on the stored key, a step stores its entry under a new key and changes no existing key |
| ServerConfig.LoadByKeyKeeps | src/config/dicom-web.ts:9-15 | the checked load changes no key of the table it starts from |
| ServerConfig.LoadByKeyStoresEvery | src/config/dicom-web.ts:9-15 | with the check on the key, a successful load holds every entry's own server under its key |
| Pyramid.Ceil | src/lib/microscopy-viewer/pyramid.ts:31-32 | `Math.ceil`: the least integer not below its argument |
| Pyramid.Round | src/lib/microscopy-viewer/pyramid.ts:44 | `Math.round`: an integer within one half of its argument, halves rounded up |
| Pyramid.RoundMonotone | src/lib/microscopy-viewer/pyramid.ts:44 | rounding keeps the order of its arguments |
| Pyramid.GridCovers | src/lib/microscopy-viewer/pyramid.ts:31-32 | the grid is the fewest tiles that cover the image: it covers it, and one tile fewer in either direction falls short |
| Pyramid.CeilTimes | src/lib/microscopy-viewer/pyramid.ts:31-32 | `ceil(total / size)` tiles of `size` reach `total`, and one fewer does not |
| Pyramid.BaseZoomIsOne | src/lib/microscopy-viewer/pyramid.ts:44 | the base image has zoom factor 1 |
| Pyramid.ZoomAntitone | src/lib/microscopy-viewer/pyramid.ts:44 | a narrower image has a zoom factor at least as large |
| Pyramid.ReversedDescribes | src/lib/microscopy-viewer/pyramid.ts:50-56 | reversing arrays that list the levels back to front lists them front to back |
| Pyramid.PushBackwards | src/lib/microscopy-viewer/pyramid.ts:23-48 | pushing the entries of the next lower level keeps the arrays listing the levels back to front |
| Pyramid.PyramidArrays.constructor | src/lib/microscopy-viewer/pyramid.ts:12-18 | the seven arrays start empty |
| Pyramid.PyramidArrays.Push | src/lib/microscopy-viewer/pyramid.ts:34-47 | one loop iteration appends the level's entry to every array and changes nothing else |
| Pyramid.PyramidArrays.ReverseAll | src/lib/microscopy-viewer/pyramid.ts:50-56 | the seven `reverse()` calls reverse every array |
| Pyramid.ComputePyramid | src/lib/microscopy-viewer/pyramid.ts:11-56 | afterwards entry `j` of every array describes level `j`, with zoom factors relative to the last (base) level |
| Pyramid.LastResolutionIsOne | src/lib/microscopy-viewer/pyramid.ts:44-50 | the last resolution, the base image's, is 1 |
| Pyramid.ResolutionsNonIncreasing | src/lib/microscopy-viewer/pyramid.ts:44-50 | when the image widths do not decrease along the levels, the resolutions do not increase |
| Pyramid.ExtentOf | src/lib/microscopy-viewer/pyramid.ts:58 | the extent starts at x = 0, ends at y = -1, and spans the base image's columns and rows |
| Pyramid.FrameInRange | src/lib/microscopy-viewer/pyramid.ts:73 | the frame of a tile inside the grid lies in `1 .. nColumns * nRows` |
| Pyramid.TileOf | src/lib/microscopy-viewer/pyramid.ts:73 | the tile a frame addresses, whose frame is that frame |
| Pyramid.TileOfFrame | src/lib/microscopy-viewer/pyramid.ts:73 | the tile is recovered from its frame |
| Pyramid.FrameInjective | src/lib/microscopy-viewer/pyramid.ts:73 | two tiles of one grid with the same frame are the same tile |
| Pyramid.TileFramesOfLevel | src/lib/microscopy-viewer/pyramid.ts:71-73 | every tile of a level's grid requests a frame of that level's image, and the tile is recovered from it |
| Pyramid.CeilQuotient | src/lib/microscopy-viewer/pyramid.ts:31-32 | `Math.ceil(total / size)` is a number exactly when `total` and `size` are both defined |
| Pyramid.InfoGridRowsUndefined | src/lib/microscopy-viewer/pyramid.ts:26-32 | as written, the column count of a grid is a number when the sizes are defined, but the row count never is, because `ImagingInfo` has no `rows` |
| Pyramid.LevelOfInfo | src/lib/microscopy-viewer/pyramid.ts:24-29 | the level read of an `ImagingInfo` whose sizes are defined, with its row size supplied: spacing `[1, 1]`, so the physical size is the pixel size |
| Pyramid.InfoGridCovers | src/lib/microscopy-viewer/pyramid.ts:26-32 | with the row size read, every level's grid covers its image in both directions |
| ViewerMap.SpacingComponent | src/app/viewer/map.ts:71-72 | `Number(...) || 1` is never 0: the recorded value when it is a non-zero number, 1 otherwise |
| ViewerMap.GetPixelSpacing | src/app/viewer/map.ts:61-74 | undefined exactly when the shared functional group or its pixel measures item is missing; otherwise two non-zero components |
| ViewerMap.GetPixelSpacingRoundTrip | src/app/viewer/map.ts:61-74 | a recorded spacing with non-zero components is read back unchanged |
| ViewerMap.GetPixelSpacingZero | src/app/viewer/map.ts:71 | a zero component is replaced by 1 |
| ViewerMap.CompareVolumes | src/app/viewer/map.ts:29-40 | 0 when either side is undefined; a TypeError exactly when a dataset lacks the TotalPixelMatrixColumns, TotalPixelMatrixRows or NumberOfFrames attribute; otherwise the comparison of series.ts on their first values, NaN where one is undefined |
| ViewerMap.CompareVolumesAgrees | src/app/viewer/map.ts:29-40 | on SM instances that carry the three attributes it gives exactly what `sortImagingInfo` of series.ts gives their infos; with the numbers defined, negative exactly when `a` is smaller by area, then by frame count |
| ViewerMap.LevelOf | src/app/viewer/map.ts:100-106 | the level read of an image carries its pixel spacing and its SOP instance UID |
| ViewerMap.Levels | src/app/viewer/map.ts:99-106 | one level per image, in order |
| ViewerMap.ResolutionTableKeys | src/app/viewer/map.ts:123 | the table's keys are exactly the images' instance UIDs |
| ViewerMap.ResolutionTableAt | src/app/viewer/map.ts:121-123 | an instance maps to the zoom factor of the first image with its UID, which is written last |
| ViewerMap.ResolutionTableStep | src/app/viewer/map.ts:99-126 | the table of the images from `j` on is that of the images after `j`, with image `j` written last |
| ViewerMap.ComputePyramidInfo | src/app/viewer/map.ts:82-148 | afterwards entry `j` of every array describes image `j`, the base sizes are the last image's, and `instanceResolutions` is the table of zoom factors by instance UID |
| ViewerMap.InstanceResolutionIsResolution | src/app/viewer/map.ts:121-123 | with distinct instance UIDs, an instance's recorded zoom factor is its level's resolution |
| ViewerMap.MapExtent | src/app/viewer/map.ts:176 | the extent spans the base image's columns and rows |
| ViewerMap.TileFrame | src/app/viewer/map.ts:207-213 | inside the grid, `tileUrlFunction([z, x, y])` requests a frame of image `z`, and the tile is recovered from it |
| AnnotationState.SpreadLaws | src/app/viewer/_hooks/annotation/index.ts:84-87 | object spread is associative, `{}` is its unit, and spreading an object over itself, or spreading a patch twice, changes nothing |
| AnnotationState.CreatedSeriesUid | src/app/viewer/_hooks/annotation/index.ts:63 | the given series UID when truthy, else `draft-series-` and a fresh id |
| AnnotationState.NewGroup | src/app/viewer/_hooks/annotation/index.ts:66-74 | the created group has the seed's name, color and graphic type, its series and group UIDs, status ready, 0 annotations, and is editable and visible |
| AnnotationState.CreateMapSpec | src/app/viewer/_hooks/annotation/index.ts:65-76 | `create` adds the group under its series and changes no other group or series; an existing series keeps its flags, a new one is editable; no series is left empty |
| AnnotationState.Merged | src/app/viewer/_hooks/annotation/index.ts:84-87 | the updated group is the old group's properties overridden by the patch, or the patch alone when the group is missing |
| AnnotationState.UpdateMap | src/app/viewer/_hooks/annotation/index.ts:84-89 | `update` throws exactly when the series is missing |
| AnnotationState.UpdateMapSpec | src/app/viewer/_hooks/annotation/index.ts:84-89 | `update` replaces the one group with the merged group and changes no other group, series or series flag; no series is left empty |
| AnnotationState.SelectionAfterUpdate | src/app/viewer/_hooks/annotation/index.ts:91-93 | the selection becomes the merged group exactly when it has the updated series and group UIDs, and is kept otherwise |
| AnnotationState.DeleteMap | src/app/viewer/_hooks/annotation/index.ts:99-106 | `delete` throws exactly when a group UID is given and the series is missing |
| AnnotationState.DeleteMapSpec | src/app/viewer/_hooks/annotation/index.ts:99-106 | afterwards the series is present exactly when a group was named and others remain, and then it has lost exactly that group; other series are untouched |
| AnnotationState.RefreshedMapKeys | src/app/viewer/_hooks/annotation/index.ts:124-130 | `refresh` keeps every series with its flags, and every group key |
| AnnotationState.RefreshedMapGroups | src/app/viewer/_hooks/annotation/index.ts:124-130 | `refresh` sets every group's status to initialized and keeps its other properties |
| AnnotationState.RefreshedMapKeepsNoEmptySeries | src/app/viewer/_hooks/annotation/index.ts:124-130 | `refresh` keeps every series non-empty |
| AnnotationState.RefreshedMapIdempotent | src/app/viewer/_hooks/annotation/index.ts:124-130 | a second `refresh` changes nothing |
| AnnotationState.AnnotationStore.constructor | src/app/viewer/_hooks/annotation/index.ts:55 | the store starts with an empty map, no selection and no draw type |
| AnnotationState.AnnotationStore.Create | src/app/viewer/_hooks/annotation/index.ts:60-80 | the map becomes `CreateMap` with the new group under `draft-group-` and a fresh id; the group is selected and its graphic type becomes the draw type |
| AnnotationState.AnnotationStore.Update | src/app/viewer/_hooks/annotation/index.ts:83-94 | throws, changing nothing, exactly when the series is missing; otherwise the map becomes `UpdateMap` and the selection `SelectionAfterUpdate`; the draw type is kept |
| AnnotationState.AnnotationStore.Delete | src/app/viewer/_hooks/annotation/index.ts:97-117 | throws, changing nothing, exactly when a group is named in a missing series; otherwise the map becomes `DeleteMap`, and the selection is cleared exactly when it lies in the deleted series or group |
| AnnotationState.AnnotationStore.Reset | src/app/viewer/_hooks/annotation/index.ts:120-121 | the map becomes the given map, as it is; nothing else changes |
| AnnotationState.AnnotationStore.Refresh | src/app/viewer/_hooks/annotation/index.ts:124-130 | the nested loop leaves the map `RefreshedMap` of the old map; nothing else changes |
| AnnotationState.AnnotationStore.RefreshGroups | src/app/viewer/_hooks/annotation/index.ts:126-128 | the inner loop sets the status of every group of one series to initialized |
| AnnotationState.ReducerKeepsNoEmptySeries | src/app/viewer/_hooks/annotation/index.ts:57-131 | a map whose every series has a group keeps that through create, update and delete |
| AnnotationState.RecommendedColor | src/app/viewer/_hooks/annotation/index.ts:221-224 | `#` and the converted colour, or the default `#3399CC` when there is no value or no hex |
| AnnotationState.GetReferenceInstanceUid | src/app/viewer/_hooks/annotation/index.ts:209-213 | undefined when the chain of first referenced series and instance breaks; throws exactly when a referenced instance lacks ReferencedSOPInstanceUID; otherwise its first value |
| AnnotationState.LoadedGroup | src/app/viewer/_hooks/annotation/index.ts:145-157 | fails exactly when `$dicom` throws on the group label; otherwise a loaded group is initialized, not editable and visible, carries its dataset, series UID, `$dicom` label and recommended colour, and is keyed by its group UID |
| AnnotationState.GroupMapOfKeys | src/app/viewer/_hooks/annotation/index.ts:144-158 | a series' group map, when built, is keyed by exactly the UIDs of its groups |
| AnnotationState.GroupMapOfValue | src/app/viewer/_hooks/annotation/index.ts:144-158 | each entry is the loaded form of the last group with that UID |
| AnnotationState.GroupMapOfLoaded | src/app/viewer/_hooks/annotation/index.ts:144-158 | every group of a loaded series is initialized, not editable and visible |
| AnnotationState.GroupMapOfThrows | src/app/viewer/_hooks/annotation/index.ts:144-158 | building a series' group map fails exactly when `$dicom` throws on one of the group labels |
| AnnotationState.LoadedEntryThrows | src/app/viewer/_hooks/annotation/index.ts:141-163 | one series fails exactly when `$dicom` throws on its SeriesInstanceUID or a group label, or reading its reference throws |
| AnnotationState.LoadedMapThrows | src/app/viewer/_hooks/annotation/index.ts:140-165 | loading fails exactly when, for one of the series, `$dicom` throws on its SeriesInstanceUID or on a group label, or reading its reference throws |
| AnnotationState.LoadedMapKeys | src/app/viewer/_hooks/annotation/index.ts:140-165 | the loaded map is keyed by exactly the series' UIDs |
| AnnotationState.LoadedMapLoaded | src/app/viewer/_hooks/annotation/index.ts:140-165 | every loaded series is not editable, and each of its groups is in the loaded state |
| AnnotationLoad.LoadAnnotationGroups | src/app/viewer/_hooks/annotation/index.ts:136-165 | the loop builds `LoadedMap` of the fetched series, and fails when `$dicom` throws on a series UID or group label or a reference throws |
| AnnotationLoad.LoadGroups | src/app/viewer/_hooks/annotation/index.ts:144-158 | the inner loop builds the group map of all of a series' groups, and fails exactly when `$dicom` throws on one of their labels |
| Geometry.Scaled | src/app/viewer/_hooks/annotation/layer.ts:184 | every point value is multiplied by the resolution, and the list keeps its length |
| Geometry.ScaledLaws | src/app/viewer/_hooks/annotation/layer.ts:184 | scaling by 1 is the identity; scaling by a then b is scaling by a·b |
| Geometry.Decremented | src/app/viewer/_hooks/annotation/layer.ts:198-199 | each stored 32-bit index, incremented modulo 2^32, gives back the original index |
| Geometry.DecrementedValues | src/app/viewer/_hooks/annotation/layer.ts:198-199 | a positive 1-based index becomes its 0-based predecessor; index 0 wraps around to 2^32 - 1 |
| Geometry.CoordinatesOf | src/app/viewer/_hooks/annotation/layer.ts:208-211 | the pairing loop yields (n + 1) / 2 coordinates, the k-th being (points[2k], -points[2k+1]) |
| Geometry.CoordinatesRoundTrip | src/app/viewer/_hooks/annotation/layer.ts:208-211 | pairing loses nothing: the point values are recovered from the coordinates (y negated back) |
| Geometry.PolylinesShape | src/app/viewer/_hooks/annotation/layer.ts:227-238 | each kept polyline is a run of at least two consecutive coordinates; at most one per index |
| Geometry.PolylinesPartition | src/app/viewer/_hooks/annotation/layer.ts:227-238 | with increasing in-range indices, there is one polyline per index and together they are exactly the coordinates from the first index on |
| Geometry.SegmentWithin | src/app/viewer/_hooks/annotation/layer.ts:230 | with well-formed indices, segment i is the slice from index i to the next index (or the end), at least two long |
| Geometry.PolygonRingIsSlice | src/app/viewer/_hooks/annotation/layer.ts:247-250 | the ring is slice(floor(i/2), floor(next/2) or length) followed by its first coordinate, kept exactly when the slice is non-empty |
| Geometry.PolygonRingClosed | src/app/viewer/_hooks/annotation/layer.ts:249-251 | every kept ring ends with its own first coordinate around a run of consecutive coordinates |
| Geometry.PolygonsClosed | src/app/viewer/_hooks/annotation/layer.ts:244-257 | every polygon is a single closed ring; at most one polygon per index |
| Geometry.RunClosed | src/app/viewer/_hooks/annotation/layer.ts:249 | a run of coordinates followed by its first element is a closed ring |
| Geometry.RectangleRingIsSlice | src/app/viewer/_hooks/annotation/layer.ts:281 | the rectangle ring is slice(4k, 4k+4) followed by coordinates[4k] |
| Geometry.ChunkCount | src/app/viewer/_hooks/annotation/layer.ts:280 | the loop stepping by 4 runs ceil(n / 4) times |
| Geometry.RectangleRingClosed | src/app/viewer/_hooks/annotation/layer.ts:281 | a rectangle ring is closed, holds two to five points, and without its last point is the chunk |
| Geometry.RectanglesChunks | src/app/viewer/_hooks/annotation/layer.ts:278-287 | the j-th rectangle polygon is the j-th chunk of four coordinates, closed |
| Geometry.EllipsesCorners | src/app/viewer/_hooks/annotation/layer.ts:263-272 | one ellipse per full chunk of four coordinates, whose corners laid end to end are the coordinates |
| Geometry.BatchesSpec | src/app/viewer/_hooks/annotation/layer.ts:233-241 | the batches hold the shapes in order, each holds 1 to 10001 shapes, and all but the last are full |
| Geometry.BatchesOfFull | src/app/viewer/_hooks/annotation/layer.ts:233-241 | full batches followed by a partial one are exactly the batches of their concatenation |
| Geometry.FullBatchesOf | src/app/viewer/_hooks/annotation/layer.ts:233-236 | full batches followed by a partial remainder give back the full batches only |
| Geometry.Push | src/app/viewer/_hooks/annotation/layer.ts:232-236 | pushing an item keeps all flushed batches full and the accumulator within 10001 items, and loses nothing |
| Geometry.Flush | src/app/viewer/_hooks/annotation/layer.ts:239-241 | flushing a non-empty accumulator yields exactly the batches of all items seen |
| Geometry.SourceThrows | src/app/viewer/_hooks/annotation/layer.ts:201-203 | with no points nothing is added; otherwise it throws exactly for POLYLINE/POLYGON without indices and for an ELLIPSE whose coordinates do not come in fours |
| Geometry.SourceBatches | src/app/viewer/_hooks/annotation/layer.ts:223-296 | each addFeature receives 1 to 10001 shapes, all but the last exactly 10001, and together they are the shapes in order; after a throw, a prefix of them within one batch of the whole |
| Geometry.FetchAnnotationSource | src/app/viewer/_hooks/annotation/layer.ts:161-297 | the geometries added and whether it throws are those of the reference definition Source |
| Geometry.PolylineBatches | src/app/viewer/_hooks/annotation/layer.ts:227-242 | the POLYLINE loop adds the batches of the kept segments |
| Geometry.PolygonBatches | src/app/viewer/_hooks/annotation/layer.ts:244-262 | the POLYGON loop adds the batches of the closed rings |
| Geometry.EllipseBatches | src/app/viewer/_hooks/annotation/layer.ts:263-277 | throws exactly when the coordinate count is not a multiple of 4; otherwise adds the batches of ellipses, else only the full batches before the throw |
| Geometry.RectangleBatches | src/app/viewer/_hooks/annotation/layer.ts:278-292 | the RECTANGLE loop adds the batches of closed chunks |
| Geometry.CreateEllipse | src/app/viewer/_hooks/annotation/layer.ts:299-324 | the drawn ring holds 64 sampled points followed by the first again (65 points, closed) |
| Features.CoordinateWidth | src/lib/microscopy-viewer/annotation.ts:23-27 | the coordinate element is 8 bytes for OD and 4 otherwise |
| Features.CoordinatesData | src/lib/microscopy-viewer/annotation.ts:7-28 | fails exactly when the buffer is missing or not a whole number of elements; otherwise splits the buffer into element-sized groups that concatenate back to it |
| Features.IndexesData | src/lib/microscopy-viewer/annotation.ts:30-47 | fails exactly when the buffer is not a whole number of words; otherwise the k-th index is the little-endian word of bytes 4k..4k+4 |
| Features.CoordinatesDataOfEncoded | src/lib/microscopy-viewer/annotation.ts:7-28 | base64-encoded inline bytes decode back to those bytes |
| Features.IndexesDataOfEncoded | src/lib/microscopy-viewer/annotation.ts:30-47 | base64-encoded inline bytes decode to their 32-bit words |
| Features.BinaryBuffer | src/lib/microscopy-viewer/annotation.ts:13-16 | the copy loop stores each character code of the binary string |
| Features.Buffer | src/lib/microscopy-viewer/annotation.ts:8-21 | the buffer is that of the reference definition BufferOf |
| Features.DecodeCoordinatesData | src/lib/microscopy-viewer/annotation.ts:7-28 | agrees with CoordinatesData |
| Features.DecodeIndexesData | src/lib/microscopy-viewer/annotation.ts:30-47 | agrees with IndexesData |
| Features.DecodedPoints | src/lib/microscopy-viewer/annotation.ts:92-97 | no point values exactly when the annotation carries neither inline nor bulk point data; otherwise decoding fails exactly when the coordinate reader does |
| Features.FindResolutionSpec | src/lib/microscopy-viewer/annotation.ts:99 | the lookup returns the resolution of the first entry for the instance, and nothing when no entry matches |
| Features.ScaleFor | src/lib/microscopy-viewer/annotation.ts:99-104 | fails (TypeError) exactly for an empty resolution list; a zero result only when the last entry's resolution is zero |
| Features.ScaleForSpec | src/lib/microscopy-viewer/annotation.ts:99-104 | the scale is the first matching entry's resolution when non-zero, else the last entry's |
| Features.CollectedSpec | src/lib/microscopy-viewer/annotation.ts:88-175 | collecting fails exactly when some annotation throws, with the first such error; otherwise it is all outputs in order |
| Features.CollectedFailed | src/lib/microscopy-viewer/annotation.ts:88-175 | once an annotation has thrown, the result stays that error |
| Features.ComputedFeaturesSpec | src/lib/microscopy-viewer/annotation.ts:81-178 | the promise rejects exactly when some annotation throws; otherwise it holds every annotation's features in order |
| Features.AnnotationFeaturesSkips | src/lib/microscopy-viewer/annotation.ts:99-134 | missing or empty points, or a POLYLINE/POLYGON without indices, contribute nothing; an empty resolution list rejects |
| Features.PolylineFeaturesShape | src/lib/microscopy-viewer/annotation.ts:140-147 | every LineString has at least two consecutive coordinates; at most one per index |
| Features.PolygonFeaturesClosed | src/lib/microscopy-viewer/annotation.ts:148-157 | every Polygon is one closed ring; at most one per index |
| Features.RectangleFeaturesShape | src/lib/microscopy-viewer/annotation.ts:165-170 | one Polygon per chunk of four coordinates, the chunk closed |
| Features.EllipseFeaturesShape | src/lib/microscopy-viewer/annotation.ts:158-164 | throws exactly when the coordinates do not come in fours; otherwise one Polygon per four coordinates |
| Features.ComputeAnnotationFeatures | src/lib/microscopy-viewer/annotation.ts:81-178 | agrees with the reference definition ComputedFeatures |
| Features.AnnotationFeaturesOf | src/lib/microscopy-viewer/annotation.ts:88-175 | the loop body for one annotation agrees with AnnotationFeatures |
| Features.DecodePoints | src/lib/microscopy-viewer/annotation.ts:92-97 | agrees with DecodedPoints |
| Features.DecodeIndexes | src/lib/microscopy-viewer/annotation.ts:108-115 | agrees with the decoded index words |
| Features.ShapeFeaturesOf | src/lib/microscopy-viewer/annotation.ts:136-174 | the switch over the graphic type agrees with ShapeFeatures |
| Features.PolylineFeatures | src/lib/microscopy-viewer/annotation.ts:140-147 | one LineString per kept segment, in order |
| Features.PolygonRingFeatures | src/lib/microscopy-viewer/annotation.ts:148-157 | one Polygon per non-empty ring, closed |
| Features.EllipseFeatures | src/lib/microscopy-viewer/annotation.ts:158-164 | fails with TypeError exactly when the coordinates do not come in fours; otherwise one Polygon per chunk |
| Features.RectangleFeatures | src/lib/microscopy-viewer/annotation.ts:165-170 | one Polygon per chunk of up to four, closed |
| AnnotationLayers.GroupKeysSpec | src/app/viewer/_hooks/annotation/layer.ts:59 | a (series, group) key is among the map's group keys exactly when the map holds that group |
| AnnotationLayers.Scale | src/app/viewer/_hooks/annotation/layer.ts:102 | the fetch scale is the reference instance's resolution when present and non-zero, and 1 otherwise; never 0 |
| AnnotationLayers.KeysOfSpec | src/app/viewer/_hooks/annotation/layer.ts:58-59 | a key is among the layers' keys exactly when some layer carries it |
| AnnotationLayers.DistinctKeys | src/app/viewer/_hooks/annotation/layer.ts:69-92 | layers built by the pass carry pairwise different keys |
| AnnotationLayers.DistinctPrefix | src/app/viewer/_hooks/annotation/layer.ts:57-64 | a prefix of distinct layers is distinct and shares no key with the rest |
| AnnotationLayers.RestyleKeeps | src/app/viewer/_hooks/annotation/layer.ts:108-111 | restyling a layer in place keeps the keys and their distinctness |
| AnnotationLayers.Styled | src/app/viewer/_hooks/annotation/layer.ts:108-111 | restyling keeps the layer's key and kind, shows it exactly when the group's visible is true, and takes the group's colour only when the pass sets a style |
| AnnotationLayers.NewLayer | src/app/viewer/_hooks/annotation/layer.ts:75-92 | a new layer carries the group's key, is image-backed exactly when the group has more than 10000 annotations, and is already styled from its group |
| AnnotationLayers.PrunedKeys | src/app/viewer/_hooks/annotation/layer.ts:56-64 | after pruning a key remains exactly when it was there and its group is still in the map |
| AnnotationLayers.PrunedInMap | src/app/viewer/_hooks/annotation/layer.ts:56-64 | every layer left after pruning has its group in the map |
| AnnotationLayers.PrunedAll | src/app/viewer/_hooks/annotation/layer.ts:56-64 | pruning changes nothing when every layer's group is in the map |
| AnnotationLayers.WithoutKeySpec | src/app/viewer/_hooks/annotation/layer.ts:62 | filtering one layer out of distinct layers removes exactly its key and keeps the rest distinct |
| AnnotationLayers.WithoutAbsentKey | src/app/viewer/_hooks/annotation/layer.ts:62 | filtering out a key no layer carries changes nothing |
| AnnotationLayers.PruneStep | src/app/viewer/_hooks/annotation/layer.ts:57-64 | one prune iteration keeps a layer whose group exists and filters out one whose group is gone |
| AnnotationLayers.PruneEnds | src/app/viewer/_hooks/annotation/layer.ts:57-64 | the prune loop starts from the whole list and ends with the pruned list |
| AnnotationLayers.FindLayer | src/app/viewer/_hooks/annotation/layer.ts:69-72 | find returns the first layer with the key, or none when no layer has it |
| AnnotationLayers.FindLayerKeys | src/app/viewer/_hooks/annotation/layer.ts:69-72 | find succeeds exactly for the keys among the layers |
| AnnotationLayers.OlDrawTypeInjective | src/app/viewer/_hooks/annotation/layer.ts:134-140 | distinct graphic types map to distinct draw settings; 'Circle' with a geometry function exactly for ELLIPSE and RECTANGLE |
| AnnotationLayers.LayerHook.constructor | src/app/viewer/_hooks/annotation/layer.ts:31-32 | the hook starts with no layers, none on the map, the layer array the one captured at mount, and no draw interaction |
| AnnotationLayers.LayerHook.Unmount | src/app/viewer/_hooks/annotation/layer.ts:35-49 | unmounting empties the layer array captured at mount, so the layer list is emptied only when no pass has replaced that array by `filter`; it dispatches a refresh and leaves the draw interaction alone |
| AnnotationLayers.LayerHook.SetMapLayers | src/app/viewer/map.ts:251 | loading a slide into the map leaves no annotation layer on it, while the hook keeps its layers |
| AnnotationLayers.LayerHook.Reconcile | src/app/viewer/_hooks/annotation/layer.ts:51-114 | without a map or resolutions nothing happens; otherwise the kept layers stay in place restyled, each group without a layer gets a new one at the end, the keys are exactly the map's groups, every layer is on the map (added back when a new map lacks it) and no pruned one is, the array is replaced exactly when a layer is pruned, and each 'initialized' group gets exactly one 'loading' update and one fetch at its series' scale; a map whose groups already have layers is only restyled |
| AnnotationLayers.LayerHook.Pass | src/app/viewer/_hooks/annotation/layer.ts:56-113 | the two loops of a pass, with the same outcome as Reconcile's when the map and resolutions are there |
| AnnotationLayers.LayerHook.AddAll | src/app/viewer/_hooks/annotation/layer.ts:67-113 | the second loop gives every group of the map its layer, puts every one on the map, and fetches each 'initialized' group once |
| AnnotationLayers.LayerHook.Filter | src/app/viewer/_hooks/annotation/layer.ts:60-62 | one pruned layer leaves the map and the list, which becomes a new array |
| AnnotationLayers.LayerHook.Prune | src/app/viewer/_hooks/annotation/layer.ts:56-64 | the first loop leaves exactly the pruned layers, still one per key, takes exactly the removed layers off the map, and replaces the array exactly when it removes one |
| AnnotationLayers.LayerHook.AddSeries | src/app/viewer/_hooks/annotation/layer.ts:68-112 | the inner loop extends the layers and the fetches by the groups of one series, and puts their layers on the map |
| AnnotationLayers.LayerHook.AddGroup | src/app/viewer/_hooks/annotation/layer.ts:69-111 | one group: its layer is restyled in place or a new one appended, and is on the map afterwards; a fetch and a 'loading' update exactly when it is 'initialized' |
| AnnotationLayers.LayerHook.DrawEffect | src/app/viewer/_hooks/annotation/layer.ts:117-158 | with a map, an active layer and a draw type, the stored interaction is replaced by a new one for the active layer with the type's draw settings; otherwise nothing changes |
| AnnotationLayers.LayerHook.RemoveInteraction | src/app/viewer/_hooks/annotation/layer.ts:155-157 | the cleanup removes that interaction from the map and nothing else |
| AnnotationLayers.RemoveDraw | src/app/viewer/_hooks/annotation/layer.ts:131 | removing an interaction keeps exactly the others |
| AnnotationLayers.Fetching | src/app/viewer/_hooks/annotation/layer.ts:100-105 | a fetch and a 'loading' update exactly for an 'initialized' group |
| AnnotationLayers.Loadings | src/app/viewer/_hooks/annotation/layer.ts:101 | one 'loading' update per fetch, in the same order |
| AnnotationLayers.PassStart | src/app/viewer/_hooks/annotation/layer.ts:51-67 | before the second loop no series is done, the pruned layers are untouched and nothing is fetched |
| AnnotationLayers.ExtendedStep | src/app/viewer/_hooks/annotation/layer.ts:69-111 | handling one more group keeps the layers an extension of the pruned ones |
| AnnotationLayers.GroupStep | src/app/viewer/_hooks/annotation/layer.ts:69-111 | handling one more group keeps both invariants of the second loop |
| AnnotationLayers.FetchedStep | src/app/viewer/_hooks/annotation/layer.ts:100-105 | handling one more group keeps one fetch per done 'initialized' group |
| AnnotationLayers.ExtendedComplete | src/app/viewer/_hooks/annotation/layer.ts:66-113 | once every group is done, the extension is exactly the reconciled layer list |
| AnnotationLayers.ExtendedUnchanged | src/app/viewer/_hooks/annotation/layer.ts:66-113 | when the layers already match the map's groups, the pass only restyles them in place |
| AnnotationLayers.AddedAppend | src/app/viewer/_hooks/annotation/layer.ts:75-92 | appending a new layer for an absent key adds exactly that group |
| AnnotationLayers.AddedInPlace | src/app/viewer/_hooks/annotation/layer.ts:108-111 | restyling the layer with a key touches no other layer and keeps the keys |
| LegacyViewer.LegacyStore.constructor | src/app/viewer/annotation.ts:64 | the reducer starts from an empty map and no selection |
| LegacyViewer.LegacyStore.Create | src/app/viewer/annotation.ts:69-86 | adds a fresh draft group to the given or a fresh draft series and selects it |
| LegacyViewer.LegacyStore.Update | src/app/viewer/annotation.ts:89-94 | throws exactly for a missing series; otherwise merges the patch into the group; the selection is never touched |
| LegacyViewer.LegacyStore.Delete | src/app/viewer/annotation.ts:97-117 | throws exactly when a group is named in a missing series; otherwise removes the group or series, drops an emptied series, and clears a deleted selection |
| LegacyViewer.LegacyStore.Reset | src/app/viewer/annotation.ts:120-121 | the map becomes the given one |
| LegacyViewer.LegacyStore.Refresh | src/app/viewer/annotation.ts:124-130 | every group's status becomes 'initialized', nothing else changes |
| LegacyViewer.StaleSelection | src/app/viewer/annotation.ts:89-94 | after an update that changes the selected group, the selection differs from the group in the map |
| LegacyViewer.LegacyLoadedGroup | src/app/viewer/annotation.ts:146-157 | fails exactly when `$dicom` throws on the group label; otherwise a loaded group is initialized, visible, not editable, with colour '', its `$dicom` label and its dataset |
| LegacyViewer.LegacyLoadedGroupColour | src/app/viewer/annotation.ts:146-157 | the older loader fails on the same groups as the newer one, and otherwise builds the newer loader's group except that the colour is '' |
| LegacyViewer.LegacyLayerHook.constructor | src/app/viewer/annotation.ts:190-192 | the hook starts with no layers, none on the map, the layer array the one captured at mount, and no draw interaction |
| LegacyViewer.LegacyLayerHook.Unmount | src/app/viewer/annotation.ts:194-208 | unmounting empties the layer array captured at mount, so the layer list is emptied only when no pass has replaced that array by `filter`; it dispatches a refresh |
| LegacyViewer.LegacyLayerHook.SetMapLayers | src/app/viewer/map.ts:251 | loading a slide into the map leaves no annotation layer on it, while the hook keeps its layers |
| LegacyViewer.LegacyLayerHook.Reconcile | src/app/viewer/annotation.ts:210-267 | nothing happens without a map, with an empty annotation map or without resolutions, and what is on the map stays; otherwise the layers reconcile as in the newer pass, put back on the map and with the pruned ones taken off, but no style is set |
| LegacyViewer.LegacyLayerHook.Pass | src/app/viewer/annotation.ts:215-266 | the two loops of the older pass, with the same outcome as Reconcile's when it runs |
| LegacyViewer.LegacyLayerHook.AddAll | src/app/viewer/annotation.ts:226-266 | the second loop gives every group its layer, puts every one on the map, and fetches each 'initialized' group once |
| LegacyViewer.LegacyLayerHook.Filter | src/app/viewer/annotation.ts:219-221 | one pruned layer leaves the map and the list, which becomes a new array |
| LegacyViewer.LegacyLayerHook.Prune | src/app/viewer/annotation.ts:215-223 | the first loop leaves exactly the pruned layers, takes exactly those removed off the map, and replaces the array exactly when it removes one |
| LegacyViewer.LegacyLayerHook.AddSeries | src/app/viewer/annotation.ts:226-266 | the inner loop extends the layers and fetches by one series' groups, and puts their layers on the map |
| LegacyViewer.LegacyLayerHook.AddGroup | src/app/viewer/annotation.ts:228-264 | one group: its layer is made visible or hidden in place or a new unstyled one appended, and is on the map afterwards; a fetch exactly when 'initialized' |
| LegacyViewer.LegacyLayerHook.DrawEffect | src/app/viewer/annotation.ts:270-311 | with a map, an active layer and a draw type, the stored interaction is replaced by a new unstyled one; otherwise nothing changes |
| LegacyViewer.LegacyLayerHook.Cleanup | src/app/viewer/annotation.ts:307-310 | the cleanup clears the draw type and removes that interaction |

## Left out

- Network I/O is not modelled: `fetchDicomJson`, `fetchAnnotationGroups`, `fetchImages`, the bulk-data fetches and the instance counts. What a fetch returns is a parameter: already-decoded bulk data or fetched datasets.
- IEEE-754 reinterpretation of OF and OD bytes is a parameter. Coordinates are the byte groups read by a caller-supplied `toNumber`; Float32 rounding and NaN are not modelled.
- The UTF-8 `TextDecoder` in `decodeValue` is not modelled: for a value representation other than OL, OF and OD, the result is the bytes handed to it.
- Characters outside the Basic Multilingual Plane are not modelled. Every string is a sequence of UTF-16 code units, one per `char`.
- Trigonometry is left out: `calculateEllipsePoints` keeps its four corner points instead of the 50 computed ones, and `createEllipse` takes its sample points as a parameter. OpenLayers' `createBox` is not modelled.
- `Math.round`, `Math.ceil` and division work on exact reals; floating-point rounding and `toFixed(4)` physical sizes are not modelled. `getPointResolution` is not modelled.
- OpenLayers layers, sources, features, styles and draw interactions are abstracted to the properties the hooks set: key, kind, colour, visibility, draw type and colour. `setVisible(undefined)` is read as hidden. `createStyle` and `createDrawingStyle` are reduced to the colour they carry. Map disposal and `imageRatio` are not modelled.
- The unused `hasNegativeCoordinates` flag and its warning in `fetchAnnotationSource` (src/app/viewer/_hooks/annotation/layer.ts:206-216) are not modelled, because the flag is never set.
- Of `useMap`, only the pixel spacing, the image order, the pyramid, the extent and the tile-frame arithmetic are modelled. The OpenLayers map, view, tile grid and projection it builds are not.
- React scheduling is not modelled: when effects run and how dispatches are batched. Each effect and cleanup is a method called with the state it sees. The `ready` and `error` updates dispatched after a fetch settles are not modelled; the pass records the fetches it starts.
- `Object.entries` and `for…in` order is a parameter (or an arbitrary choice) wherever the program relies on the engine's key order.
- Random UIDs (`crypto.randomUUID`) are parameters. The colour conversion of `getRecommendedColor` (color-convert's `toHex`) is a parameter.
- The older loader loop in `src/app/viewer/annotation.ts` is not modelled separately. It builds the same map as `AnnotationLoad` apart from the colour, and `LegacyViewer.LegacyLoadedGroup` and `LegacyViewer.LegacyLoadedGroupColour` state the difference.
- The older copy of `fetchAnnotationSource` is the same text as the newer one, and `Geometry` models both.
- `Number()` is modelled only on numeric values: a pixel-spacing value that is a number is read as it is, and any other value counts as missing (so it becomes 1). The parsing of numeric strings is not modelled.
- The `sort` calls of src/app/viewer/map.ts:50 and src/lib/dicom-web/studies.ts:103 are not modelled; only their comparators and order properties are (`Studies.FewestFrames` gives the first element a stable sort yields). `toSorted` in series.ts is modelled by `Series.SortInfos`, a stable insertion sort.
- Series.SortInfosSorted: promises ascending order only when every info defines its sizes and frame count. With a number undefined, `sortImagingInfo` returns NaN, which the sort reads as "equal", and the comparator is not transitive (`Series.IncompleteNotTransitive`), so ECMAScript leaves the order to the engine; the model's insertion sort gives one such order, and only the permutation is promised.
- Series.InfoOf: the SOP Instance UID is read as '' when it is missing, where `as string` leaves it `undefined`; no member of the model relies on the UID of an info.
- ViewerMap.LevelOf: a missing SOP Instance UID is read as '', where map.ts throws a TypeError when the attribute is absent and otherwise records the zoom factor under the key "undefined"; `AnnotationLayers.Scale` likewise does not read `resolutions["undefined"]` for a series without a reference UID. A missing number is read as 0, and the pyramid is built only from positive numbers (`Pyramid.AllPositive`), so such an image is outside what `ViewerMap.ComputePyramidInfo` models.
- Vr.FormatPatientSex: the table lookup `{M, F, O}[value]` also finds the members an object inherits, so "constructor", "toString" or "__proto__" yield a function or an object rather than the value; only CS codes are modelled.
- User interface components, authentication, `src/server.ts`, logging and `console` output are not part of this model.
- Pyramid.ComputePyramid: requires at least one level, and positive tile and image sizes. The source reads the last image of an empty list and fails with a TypeError, and with a zero size its grid becomes Infinity or NaN; neither case is modelled.
- ViewerMap.ComputePyramidInfo: requires positive tile and image sizes, for the same reason as `Pyramid.ComputePyramid`.
- Features.DecodedPoints: states when points are present and when decoding fails, not the numbers themselves, which depend on the IEEE reading left out above.

## Findings

| source | as written | input that shows it | evidently intended | confidence | as-written member | corrected member |
|---|---|---|---|---|---|---|
| src/lib/microscopy-viewer/pyramid.ts:26 | `rows` is read from an `ImagingInfo`, which has no such field, so `Math.ceil(totalPixelMatrixRows / undefined)` is NaN | any image, e.g. columns 256, total 1024 × 1024: the grid has 4 columns and NaN rows | read the image's row size so the grid covers the image in both directions | not executed | Pyramid.InfoGridRowsUndefined | Pyramid.InfoGridCovers |
| src/config/dicom-web.ts:12-14 | the duplicate check tests `name`, but a nameless entry is stored under its URL's origin | `=https://a.org/x,=https://a.org/y`: both load, and the second silently replaces the first under `https://a.org` | check the key the entry is stored under, so every entry keeps its own server | not executed | ServerConfig.NamelessOverwrite | ServerConfig.LoadByKeyStoresEvery |

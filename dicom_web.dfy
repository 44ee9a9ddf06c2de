/**
 * The DICOMweb helpers of `src/lib/dicom-web/index.ts`: assembling a Retrieve or Search
 * URI (the resource paths of section 10 of DICOM PS3.18) and `$dicom`, the nested lookup
 * that formats a value for display.
 */
module DicomWeb {
  import opened Wrappers
  import Js
  import UrlParams
  import opened DicomJson
  import Vr

  type Entry = UrlParams.Entry

  // ---------------------------------------------------------------- numbers as text

  function DigitChar(d: nat): (c: char)
    requires d < 10
  {
    ('0' as int + d) as char
  }

  /** The decimal digits of a natural number, as JavaScript prints an integer. */
  function NatText(n: nat): (s: string)
    ensures |s| > 0 && forall i :: 0 <= i < |s| ==> Vr.IsDigit(s[i])
    decreases n
  {
    if n < 10 then [DigitChar(n)] else NatText(n / 10) + [DigitChar(n % 10)]
  }

  /** The number decimal digits stand for. */
  function NatValue(s: string): nat {
    if s == [] then 0 else 10 * NatValue(s[..|s| - 1]) + ((s[|s| - 1] as int - '0' as int) % 10)
  }

  /** Round trip: reading the printed digits back gives the number. */
  lemma {:induction false} NatValueOfText(n: nat)
    ensures NatValue(NatText(n)) == n
    decreases n
  {
    if n >= 10 {
      var s := NatText(n);
      assert s[..|s| - 1] == NatText(n / 10);
      NatValueOfText(n / 10);
    }
  }

  /** An integer as a template literal renders it. */
  function IntText(n: int): (s: string)
    ensures forall i :: 0 <= i < |s| ==> s[i] != '/'
  {
    if n < 0 then "-" + NatText(-n) else NatText(n)
  }

  // ---------------------------------------------------------------- toDicomWebUri

  /** A string option is truthy when present and non-empty. */
  predicate Given(s: Option<string>) {
    s.Some? && s.value != ""
  }

  /** A labelled segment pair such as `studies/S`, present only when the value is truthy. */
  function Segment(key: string, value: Option<string>): seq<string> {
    if Given(value) then [key, value.value] else []
  }

  function FrameSegment(frameNumber: Option<int>): seq<string> {
    if frameNumber.Some? && frameNumber.value != 0 then ["frames", IntText(frameNumber.value)] else []
  }

  function NameSegment(name: Option<string>): seq<string> {
    if Given(name) then [name.value] else []
  }

  /** The path segments after the base URL, in their fixed order; the falsy ones are omitted. */
  function PathParts(studyUid: Option<string>, seriesUid: Option<string>, instanceUid: Option<string>,
                     frameNumber: Option<int>, name: Option<string>): seq<string>
  {
    Segment("studies", studyUid) + Segment("series", seriesUid) + Segment("instances", instanceUid)
    + FrameSegment(frameNumber) + NameSegment(name)
  }

  /** Each segment preceded by a slash. */
  function JoinPath(parts: seq<string>): (s: string)
    ensures parts != [] ==> |s| > 0 && s[0] == '/'
  {
    if parts == [] then "" else "/" + parts[0] + JoinPath(parts[1..])
  }

  /** What one step of `toDicomWebUri` appends: `/key/value`, or nothing for a falsy value. */
  function Piece(key: string, value: Option<string>): (s: string)
    ensures s == JoinPath(Segment(key, value))
  {
    if Given(value) then
      var segment := [key, value.value];
      assert segment[1..] == [value.value] && segment[1..][1..] == [];
      assert JoinPath([value.value]) == "/" + value.value + "";
      "/" + key + "/" + value.value
    else ""
  }

  /** What the frame step appends: `/frames/N`, or nothing for a missing or zero frame number. */
  function FrameText(frameNumber: Option<int>): (s: string)
    ensures s == JoinPath(FrameSegment(frameNumber))
  {
    if frameNumber.Some? && frameNumber.value != 0 then
      var text := IntText(frameNumber.value);
      assert ["frames", text][1..] == [text] && ["frames", text][1..][1..] == [];
      assert JoinPath([text]) == "/" + text + "";
      SlashedKeys();
      "/frames/" + text
    else ""
  }

  /** What the last step appends: `/name`, or nothing for a falsy name. */
  function NameText(name: Option<string>): (s: string)
    ensures s == JoinPath(NameSegment(name))
  {
    if Given(name) then
      assert [name.value][1..] == [];
      "/" + name.value
    else ""
  }

  /** The path `toDicomWebUri` appends to the base URL. */
  function PathText(studyUid: Option<string>, seriesUid: Option<string>, instanceUid: Option<string>,
                    frameNumber: Option<int>, name: Option<string>): string
  {
    Piece("studies", studyUid) + Piece("series", seriesUid) + Piece("instances", instanceUid)
    + FrameText(frameNumber) + NameText(name)
  }

  /** What follows the path: `?` and the serialized search parameters, when there are any. */
  function QueryText(query: Option<seq<Entry>>): string {
    if query.Some? then "?" + UrlParams.Serialize(query.value) else ""
  }

  /** The URI `toDicomWebUri` returns, for the search parameters as a list of pairs. */
  function UriOf(baseUrl: string, studyUid: Option<string>, seriesUid: Option<string>, instanceUid: Option<string>,
                 frameNumber: Option<int>, name: Option<string>, query: Option<seq<Entry>>): string
  {
    baseUrl + PathText(studyUid, seriesUid, instanceUid, frameNumber, name) + QueryText(query)
  }

  /** The path is its segments, each after a slash. */
  lemma PathTextJoined(studyUid: Option<string>, seriesUid: Option<string>, instanceUid: Option<string>,
                       frameNumber: Option<int>, name: Option<string>)
    ensures PathText(studyUid, seriesUid, instanceUid, frameNumber, name)
      == JoinPath(PathParts(studyUid, seriesUid, instanceUid, frameNumber, name))
  {
    var a, b, c := Segment("studies", studyUid), Segment("series", seriesUid), Segment("instances", instanceUid);
    var d, e := FrameSegment(frameNumber), NameSegment(name);
    JoinPathAppend(a, b);
    JoinPathAppend(a + b, c);
    JoinPathAppend(a + b + c, d);
    JoinPathAppend(a + b + c + d, e);
  }

  predicate NoSlash(s: string) {
    forall i :: 0 <= i < |s| ==> s[i] != '/'
  }

  predicate AllNoSlash(parts: seq<string>) {
    forall k :: 0 <= k < |parts| ==> NoSlash(parts[k])
  }

  lemma AllNoSlashAppend(a: seq<string>, b: seq<string>)
    requires AllNoSlash(a) && AllNoSlash(b)
    ensures AllNoSlash(a + b)
  {
    forall k | 0 <= k < |a + b| ensures NoSlash((a + b)[k]) {
      if k >= |a| {
        assert (a + b)[k] == b[k - |a|];
      }
    }
  }

  /** Round trip: when no segment holds a slash, splitting the path at `/` gives the segments back. */
  lemma {:induction false} SplitJoinPath(parts: seq<string>)
    requires AllNoSlash(parts)
    ensures Js.Split(JoinPath(parts), "/") == [""] + parts
  {
    if parts == [] {
      Js.SplitNoSeparator("", "/");
    } else {
      assert JoinPath(parts) == "" + "/" + (parts[0] + JoinPath(parts[1..]));
      Js.SplitFirst("", "/", parts[0] + JoinPath(parts[1..]));
      SplitSegments(parts);
    }
  }

  /** The path without its leading slash splits into the segments. */
  lemma {:induction false} SplitSegments(parts: seq<string>)
    requires |parts| > 0
    requires forall k :: 0 <= k < |parts| ==> NoSlash(parts[k])
    ensures Js.Split(parts[0] + JoinPath(parts[1..]), "/") == parts
  {
    var head := parts[0];
    if |parts| == 1 {
      assert head + JoinPath(parts[1..]) == head;
      forall j | 0 <= j <= |head| ensures !Js.OccursAt(head, "/", j) {
        Js.OccursAtElements(head, "/", j);
      }
      Js.SplitNoSeparator(head, "/");
    } else {
      var rest := parts[1..];
      assert JoinPath(rest) == "/" + (rest[0] + JoinPath(rest[1..]));
      var tail := rest[0] + JoinPath(rest[1..]);
      assert head + JoinPath(rest) == head + "/" + tail;
      forall j | 0 <= j < |head| ensures !Js.OccursAt(head + "/" + tail, "/", j) {
        Js.OccursAtElements(head + "/" + tail, "/", j);
        assert (head + "/" + tail)[j] == head[j];
      }
      Js.SplitFirst(head, "/", tail);
      SplitSegments(rest);
    }
  }

  /**
   * With every component given, the path reads `/studies/S/series/Se/instances/I/frames/F/name`
   * and splits back into exactly those components, in that order.
   */
  lemma FullPath(study: string, series: string, instance: string, frame: int, name: string)
    requires study != "" && series != "" && instance != "" && frame != 0 && name != ""
    requires NoSlash(study) && NoSlash(series) && NoSlash(instance) && NoSlash(name)
    ensures Js.Split(PathText(Some(study), Some(series), Some(instance), Some(frame), Some(name)), "/")
        == ["", "studies", study, "series", series, "instances", instance, "frames", IntText(frame), name]
  {
    FullParts(study, series, instance, frame, name);
    SplitPathText(Some(study), Some(series), Some(instance), Some(frame), Some(name));
  }

  /** Splitting the path at `/` gives an empty first piece and then its segments. */
  lemma SplitPathText(studyUid: Option<string>, seriesUid: Option<string>, instanceUid: Option<string>,
                      frameNumber: Option<int>, name: Option<string>)
    requires Given(studyUid) ==> NoSlash(studyUid.value)
    requires Given(seriesUid) ==> NoSlash(seriesUid.value)
    requires Given(instanceUid) ==> NoSlash(instanceUid.value)
    requires Given(name) ==> NoSlash(name.value)
    ensures Js.Split(PathText(studyUid, seriesUid, instanceUid, frameNumber, name), "/")
        == [""] + PathParts(studyUid, seriesUid, instanceUid, frameNumber, name)
  {
    PathPartsNoSlash(studyUid, seriesUid, instanceUid, frameNumber, name);
    PathTextJoined(studyUid, seriesUid, instanceUid, frameNumber, name);
    SplitJoinPath(PathParts(studyUid, seriesUid, instanceUid, frameNumber, name));
  }

  /** No segment of a path whose components have no slash has one. */
  lemma PathPartsNoSlash(studyUid: Option<string>, seriesUid: Option<string>, instanceUid: Option<string>,
                         frameNumber: Option<int>, name: Option<string>)
    requires Given(studyUid) ==> NoSlash(studyUid.value)
    requires Given(seriesUid) ==> NoSlash(seriesUid.value)
    requires Given(instanceUid) ==> NoSlash(instanceUid.value)
    requires Given(name) ==> NoSlash(name.value)
    ensures AllNoSlash(PathParts(studyUid, seriesUid, instanceUid, frameNumber, name))
  {
    var a, b, c := Segment("studies", studyUid), Segment("series", seriesUid), Segment("instances", instanceUid);
    var d, e := FrameSegment(frameNumber), NameSegment(name);
    assert NoSlash("studies") && NoSlash("series") && NoSlash("instances") && NoSlash("frames");
    assert AllNoSlash(a) && AllNoSlash(b) && AllNoSlash(c) && AllNoSlash(d) && AllNoSlash(e);
    AllNoSlashAppend(a, b);
    AllNoSlashAppend(a + b, c);
    AllNoSlashAppend(a + b + c, d);
    AllNoSlashAppend(a + b + c + d, e);
  }

  lemma FullParts(study: string, series: string, instance: string, frame: int, name: string)
    requires study != "" && series != "" && instance != "" && frame != 0 && name != ""
    ensures [""] + PathParts(Some(study), Some(series), Some(instance), Some(frame), Some(name))
        == ["", "studies", study, "series", series, "instances", instance, "frames", IntText(frame), name]
  {
    assert Segment("studies", Some(study)) == ["studies", study];
    assert Segment("series", Some(series)) == ["series", series];
    assert Segment("instances", Some(instance)) == ["instances", instance];
    assert FrameSegment(Some(frame)) == ["frames", IntText(frame)];
    assert NameSegment(Some(name)) == [name];
    assert PathParts(Some(study), Some(series), Some(instance), Some(frame), Some(name))
        == ["studies", study, "series", series, "instances", instance, "frames", IntText(frame), name];
  }

  /** Frame number 0 is falsy, so it adds nothing to the URI. */
  lemma FrameZeroOmitted(baseUrl: string, study: Option<string>, series: Option<string>, instance: Option<string>,
                         name: Option<string>, query: Option<seq<Entry>>)
    ensures UriOf(baseUrl, study, series, instance, Some(0), name, query) == UriOf(baseUrl, study, series, instance, None, name, query)
  {
  }

  /** With search parameters the URI ends in `?` and their serialization, whose `&`-pieces are the pairs. */
  lemma QueryAtEnd(baseUrl: string, study: Option<string>, series: Option<string>, instance: Option<string>,
                   frame: Option<int>, name: Option<string>, query: seq<Entry>)
    requires |query| > 0
    ensures var uri := UriOf(baseUrl, study, series, instance, frame, name, Some(query));
      var q := UrlParams.Serialize(query);
      |uri| > |q| && uri[|uri| - |q| - 1] == '?' && Js.Split(uri[|uri| - |q|..], "&") == UrlParams.Pieces(query)
  {
    var uri := UriOf(baseUrl, study, series, instance, frame, name, Some(query));
    var q := UrlParams.Serialize(query);
    var path := baseUrl + PathText(study, series, instance, frame, name);
    assert uri == path + "?" + q;
    assert uri[|uri| - |q|..] == q;
    UrlParams.SplitSerialized(query);
  }

  /** The `searchParams` option: a plain record of pairs or a `URLSearchParams` object. */
  datatype ParamsArg = Record(entries: seq<Entry>) | Params(params: UrlParams.SearchParams)

  /** The `FetchOptions` object the caller passes and `toDicomWebUri` updates. */
  class FetchOptions {
    var baseUrl: string
    var studyUid: Option<string>
    var seriesUid: Option<string>
    var instanceUid: Option<string>
    var frameNumber: Option<int>
    var name: Option<string>
    var searchParams: Option<ParamsArg>

    constructor (baseUrl: string, studyUid: Option<string>, seriesUid: Option<string>, instanceUid: Option<string>,
                 frameNumber: Option<int>, name: Option<string>, searchParams: Option<ParamsArg>)
      ensures this.baseUrl == baseUrl && this.studyUid == studyUid && this.seriesUid == seriesUid
      ensures this.instanceUid == instanceUid && this.frameNumber == frameNumber && this.name == name
      ensures this.searchParams == searchParams
    {
      this.baseUrl, this.studyUid, this.seriesUid, this.instanceUid := baseUrl, studyUid, seriesUid, instanceUid;
      this.frameNumber, this.name, this.searchParams := frameNumber, name, searchParams;
    }

    /** The pairs of the search parameters, if any. */
    function Query(): Option<seq<Entry>>
      reads this, if searchParams.Some? && searchParams.value.Params? then {searchParams.value.params} else {}
    {
      match searchParams
      case None => None
      case Some(Record(entries)) => Some(entries)
      case Some(Params(p)) => Some(p.entries)
    }
  }

  /** The path steps of `toDicomWebUri`: each truthy component appended after its key. */
  method AppendPath(baseUrl: string, studyUid: Option<string>, seriesUid: Option<string>, instanceUid: Option<string>,
                    frameNumber: Option<int>, name: Option<string>) returns (uri: string)
    ensures uri == baseUrl + PathText(studyUid, seriesUid, instanceUid, frameNumber, name)
  {
    uri := AppendSegment(baseUrl, "studies", studyUid);
    uri := AppendSegment(uri, "series", seriesUid);
    uri := AppendSegment(uri, "instances", instanceUid);
    uri := AppendFrame(uri, frameNumber);
    uri := AppendName(uri, name);
    ConcatFive(baseUrl, Piece("studies", studyUid), Piece("series", seriesUid), Piece("instances", instanceUid),
      FrameText(frameNumber), NameText(name));
  }

  lemma ConcatFive(s: string, a: string, b: string, c: string, d: string, e: string)
    ensures s + a + b + c + d + e == s + (a + b + c + d + e)
  {
  }

  /** `if (value) uri += `/key/${value}``. */
  method AppendSegment(uri: string, key: string, value: Option<string>) returns (u: string)
    ensures u == uri + Piece(key, value)
  {
    u := uri;
    if Given(value) {
      u := u + "/" + key + "/" + value.value;
    } else {
      Js.AppendEmpty(u);
    }
  }

  /** `if (frameNumber) uri += `/frames/${frameNumber}``: frame 0 is falsy. */
  method AppendFrame(uri: string, frameNumber: Option<int>) returns (u: string)
    ensures u == uri + FrameText(frameNumber)
  {
    u := uri;
    if frameNumber.Some? && frameNumber.value != 0 {
      u := u + "/frames/" + IntText(frameNumber.value);
    } else {
      Js.AppendEmpty(u);
    }
  }

  /** `if (name) uri += `/${name}``. */
  method AppendName(uri: string, name: Option<string>) returns (u: string)
    ensures u == uri + NameText(name)
  {
    u := uri;
    if Given(name) {
      u := u + "/" + name.value;
    } else {
      Js.AppendEmpty(u);
    }
  }

  /** One step of the path: appending a separator and a value appends their piece. */
  lemma AppendStep(baseUrl: string, path: string, uri: string, sep: string, value: string, piece: string)
    requires uri == baseUrl + path && piece == sep + value
    ensures uri + sep + value == baseUrl + (path + piece)
  {
  }

  /** A skipped step leaves the URI as it is and appends an empty piece. */
  lemma SkipStep(baseUrl: string, path: string, uri: string)
    requires uri == baseUrl + path
    ensures uri == baseUrl + (path + "")
  {
    assert path + "" == path;
  }

  /**
   * `toDicomWebUri(options)`: appends the truthy path components one by one, then `?` and the
   * search parameters, which it first replaces in `options` by a new `URLSearchParams`.
   */
  method ToDicomWebUri(options: FetchOptions) returns (uri: string)
    modifies options`searchParams
    ensures uri == UriOf(options.baseUrl, options.studyUid, options.seriesUid, options.instanceUid,
                         options.frameNumber, options.name, old(options.Query()))
    ensures old(options.searchParams).None? ==> options.searchParams.None?
    ensures old(options.searchParams).Some? ==>
      options.searchParams.Some? && options.searchParams.value.Params?
      && fresh(options.searchParams.value.params) && options.searchParams.value.params.entries == old(options.Query()).value
  {
    uri := AppendPath(options.baseUrl, options.studyUid, options.seriesUid, options.instanceUid,
                      options.frameNumber, options.name);
    if options.searchParams.Some? {
      var init := match options.searchParams.value
        case Record(entries) => entries
        case Params(p) => p.entries;
      var p := new UrlParams.SearchParams(init);
      options.searchParams := Some(Params(p));
      var text := p.ToString();
      Js.Concat3(uri, "?", text);
      uri := uri + "?" + text;
    } else {
      assert uri + "" == uri;
    }
  }

  /** The literal separators `toDicomWebUri` appends are a key between two slashes. */
  lemma SlashedKeys()
    ensures "/studies/" == "/" + "studies" + "/" && "/series/" == "/" + "series" + "/"
    ensures "/instances/" == "/" + "instances" + "/" && "/frames/" == "/" + "frames" + "/"
  {
  }

  /** Appending segments appends their joined path. */
  lemma {:induction false} JoinPathAppend(parts: seq<string>, more: seq<string>)
    ensures JoinPath(parts + more) == JoinPath(parts) + JoinPath(more)
  {
    if parts == [] {
      assert parts + more == more;
    } else {
      assert (parts + more)[0] == parts[0] && (parts + more)[1..] == parts[1..] + more;
      JoinPathAppend(parts[1..], more);
    }
  }

  // ---------------------------------------------------------------- $dicom

  /**
   * `$dicom(dicomJson, ...tags)`: follows the first value of each tag but the last into the
   * nested dataset and formats the last one by its value representation; '' wherever the
   * path breaks (no object, a missing attribute, a missing or falsy first value).
   */
  function Dicom(json: Option<Dataset>, tags: seq<Tag>): (r: Vr.Shown)
    ensures json.None? || tags == [] ==> r == Vr.Shown("")
    ensures json.Some? && tags != [] && (FirstValue(json.value, tags[0]).None? || !Truthy(FirstValue(json.value, tags[0]).value))
      ==> r == Vr.Shown("")
    decreases |tags|
  {
    // `tags[0]` of no tags is undefined, and no attribute is keyed by it.
    if json.None? || tags == [] then Vr.Shown("")
    else match FirstValue(json.value, tags[0])
      case None => Vr.Shown("")
      case Some(v) =>
        if !Truthy(v) then Vr.Shown("")
        else if |tags| > 1 then
          // A string, a number or a person name has no property named by a tag.
          (if v.Item? then Dicom(Some(v.dataset), tags[1..]) else Vr.Shown(""))
        else Vr.FormatValue(json.value[tags[0]].vr, v)
  }

  /** The dataset reached by following the first value of each tag of a path. */
  function ItemAt(d: Dataset, path: seq<Tag>): Option<Dataset>
    decreases |path|
  {
    if path == [] then Some(d)
    else match FirstValue(d, path[0])
      case Some(Item(e)) => ItemAt(e, path[1..])
      case _ => None
  }

  /** A longer path looks up its last tags in the dataset its first tags lead to. */
  lemma {:induction false} DicomAppend(d: Dataset, path: seq<Tag>, rest: seq<Tag>)
    requires |rest| > 0
    ensures Dicom(Some(d), path + rest) == match ItemAt(d, path) case Some(e) => Dicom(Some(e), rest) case None => Vr.Shown("")
    decreases |path|
  {
    if path == [] {
      assert path + rest == rest;
    } else {
      var tags := path + rest;
      assert tags[0] == path[0] && tags[1..] == path[1..] + rest;
      match FirstValue(d, path[0])
      case Some(Item(e)) =>
        DicomAppend(e, path[1..], rest);
      case _ =>
    }
  }

  /** With one tag, `$dicom` formats the attribute's first value by its value representation. */
  lemma DicomSingle(d: Dataset, tag: Tag)
    requires FirstValue(d, tag).Some? && Truthy(FirstValue(d, tag).value)
    ensures Dicom(Some(d), [tag]) == Vr.FormatValue(d[tag].vr, FirstValue(d, tag).value)
  {
  }
}

/**
 * The multipart/related codec of src/lib/utils/multipart.ts: byte/string conversion,
 * token search, boundary extraction, the encoder that lays parts out in one buffer,
 * and the decoder that splits a multipart/related body (RFC 2387, boundary lines as in
 * section 5.1.1 of RFC 2046) back into its parts.
 */
module Multipart {
  import opened Wrappers
  import Js
  type Byte = Js.Byte

  /** The errors the codec throws. */
  datatype Error =
    | RangeError           // `TypedArray.prototype.set` past the end of the buffer
    | MissingMimeHeader    // 'Response message has no multipart mime header'
    | MissingBoundary      // 'Header of response message does not specify boundary'

  const MaxSearchLength: nat := 1000
  const SpacingLength: nat := 2
  /** The header/body separator `\r\n\r\n` as bytes. */
  const Separator: seq<Byte> := [13, 10, 13, 10]
  const CRLF: string := "\r\n"

  // ---------------------------------------------------------------- strings and bytes

  /** `str.charCodeAt(i)` stored into a `Uint8Array`: the code taken modulo 256. */
  function CharCodes(s: string): (r: seq<Byte>)
    ensures |r| == |s|
    ensures forall i :: 0 <= i < |s| ==> r[i] == (s[i] as int) % 0x100
  {
    seq(|s|, i requires 0 <= i < |s| => (s[i] as int) % 0x100)
  }

  /** `String.fromCharCode(arr[k])`; reading past the end gives `undefined`, which becomes U+0000. */
  function CharAt(arr: seq<Byte>, k: int): char {
    if 0 <= k < |arr| then arr[k] as char else '\0'
  }

  /** The number of characters `uint8ArrayToString` emits; a limit of 0 (or none) means "to the end". */
  function CharCount(arr: seq<Byte>, offset: nat, limit: nat): nat {
    var count := if limit == 0 then |arr| - offset else limit;
    if count < 0 then 0 else count
  }

  /** Converts a `Uint8Array` to a String (multipart.ts lines 9-17). */
  method Uint8ArrayToString(arr: seq<Byte>, offset: nat, limit: nat) returns (str: string)
    ensures |str| == CharCount(arr, offset, limit)
    ensures forall i :: 0 <= i < |str| ==> str[i] == CharAt(arr, offset + i)
  {
    var count: int := if limit == 0 then |arr| - offset else limit;
    str := "";
    var i := offset;
    while i < offset + count
      invariant offset <= i <= offset + CharCount(arr, offset, limit)
      invariant |str| == i - offset
      invariant forall j :: 0 <= j < |str| ==> str[j] == CharAt(arr, offset + j)
    {
      str := str + [CharAt(arr, i)];
      i := i + 1;
    }
  }

  /** Converts a String to a `Uint8Array` (multipart.ts lines 25-31). */
  method StringToUint8Array(str: string) returns (arr: array<Byte>)
    ensures arr[..] == CharCodes(str)
  {
    arr := new Byte[|str|](_ => 0);
    for i := 0 to |str|
      invariant forall j :: 0 <= j < i ==> arr[j] == (str[j] as int) % 0x100
    {
      arr[i] := (str[i] as int) % 0x100;
    }
  }

  /** The string `uint8ArrayToString` returns, as a function. */
  function BytesToString(arr: seq<Byte>, offset: nat, limit: nat): (s: string)
    ensures |s| == CharCount(arr, offset, limit)
  {
    seq(CharCount(arr, offset, limit), i requires 0 <= i < CharCount(arr, offset, limit) => CharAt(arr, offset + i))
  }

  predicate Latin1(s: string) {
    forall i :: 0 <= i < |s| ==> (s[i] as int) < 0x100
  }

  /** Decoding the bytes of a string whose every code is below 256 gives the string back. */
  lemma StringRoundTrip(s: string)
    requires Latin1(s)
    ensures BytesToString(CharCodes(s), 0, 0) == s
  {
    var r := BytesToString(CharCodes(s), 0, 0);
    assert |r| == |s|;
    forall i | 0 <= i < |s| ensures r[i] == s[i] {
      assert CharCodes(s)[i] == s[i] as int;
    }
  }

  lemma CharCodesAppend(a: string, b: string)
    ensures CharCodes(a + b) == CharCodes(a) + CharCodes(b)
  {
  }

  // ---------------------------------------------------------------- boundary line

  predicate IsBoundaryLine(line: string) {
    |line| >= 2 && line[..2] == "--"
  }

  /** The first line that starts with `--`, dashes included. */
  function FirstBoundaryLine(lines: seq<string>): (b: Option<string>)
    ensures b.Some? ==> exists k :: 0 <= k < |lines| && lines[k] == b.value && IsBoundaryLine(lines[k])
                                   && forall j :: 0 <= j < k ==> !IsBoundaryLine(lines[j])
    ensures b.None? <==> forall k :: 0 <= k < |lines| ==> !IsBoundaryLine(lines[k])
  {
    if lines == [] then None
    else if IsBoundaryLine(lines[0]) then Some(lines[0])
    else
      var b := FirstBoundaryLine(lines[1..]);
      assert forall k :: 1 <= k < |lines| ==> lines[k] == lines[1..][k - 1];
      b
  }

  /** Identifies the boundary in a multipart/related message header (multipart.ts lines 39-46). */
  method IdentifyBoundary(header: string) returns (b: Option<string>)
    ensures b == FirstBoundaryLine(Js.Split(header, CRLF))
  {
    var parts := Js.Split(header, CRLF);
    for k := 0 to |parts|
      invariant forall j :: 0 <= j < k ==> !IsBoundaryLine(parts[j])
    {
      if IsBoundaryLine(parts[k]) {
        return Some(parts[k]);
      }
    }
    return None;
  }

  // ---------------------------------------------------------------- token search

  /** The token occurs in the message at `i` (an empty token occurs nowhere: `token[0]` is undefined). */
  predicate TokenAt<T(==)>(message: seq<T>, token: seq<T>, i: nat) {
    |token| > 0 && Js.OccursAt(message, token, i)
  }

  /** Checks whether a token is contained by a message at an offset (multipart.ts lines 56-67). */
  method ContainsToken<T(==)>(message: seq<T>, token: seq<T>, offset: nat) returns (b: bool)
    ensures b == (offset + |token| <= |message| && forall i :: 0 <= i < |token| ==> message[offset + i] == token[i])
  {
    if offset + |token| > |message| {
      return false;
    }
    for i := 0 to |token|
      invariant forall j :: 0 <= j < i ==> message[offset + j] == token[j]
    {
      if token[i] != message[offset + i] {
        return false;
      }
    }
    return true;
  }

  /** The end of `findToken`'s search: `offset + maxSearchLength` capped at the length, or the length when no maximum (0) is given. */
  function SearchEnd(length: nat, offset: nat, maxSearchLength: nat): (e: nat)
    ensures e <= length
  {
    if maxSearchLength > 0 then (if offset + maxSearchLength < length then offset + maxSearchLength else length)
    else length
  }

  /** The least start position in `[from, to)` where the token occurs, or -1. */
  function FirstToken<T(==)>(message: seq<T>, token: seq<T>, from: nat, to: nat): (k: int)
    requires to <= |message|
    ensures k == -1 || (from <= k < to && TokenAt(message, token, k))
    decreases if from < to then to - from else 0
  {
    if from >= to then -1
    else if TokenAt(message, token, from) then from
    else FirstToken(message, token, from + 1, to)
  }

  /** `FirstToken` finds the least occurrence: none is skipped, and -1 means there is none in range. */
  lemma {:induction false} FirstTokenLeast<T>(message: seq<T>, token: seq<T>, from: nat, to: nat)
    requires to <= |message|
    ensures var k := FirstToken(message, token, from, to);
      forall q :: from <= q < (if k == -1 then to else k) ==> !TokenAt(message, token, q)
    decreases if from < to then to - from else 0
  {
    if from < to && !TokenAt(message, token, from) {
      FirstTokenLeast(message, token, from + 1, to);
    }
  }

  /** Finds a token in a message from an offset (multipart.ts lines 78-95). */
  method FindToken<T(==)>(message: seq<T>, token: seq<T>, offset: nat, maxSearchLength: nat) returns (idx: int)
    ensures idx == FirstToken(message, token, offset, SearchEnd(|message|, offset, maxSearchLength))
  {
    var searchLength := SearchEnd(|message|, offset, maxSearchLength);
    var i := offset;
    while i < searchLength
      invariant offset <= i
      invariant FirstToken(message, token, offset, searchLength) == FirstToken(message, token, i, searchLength)
    {
      if |token| > 0 && message[i] == token[0] {
        var found := ContainsToken(message, token, i);
        Js.OccursAtElements(message, token, i);
        if found {
          return i;
        }
      }
      i := i + 1;
    }
    return -1;
  }

  lemma FirstTokenIs<T>(message: seq<T>, token: seq<T>, from: nat, to: nat, p: nat)
    requires from <= p < to <= |message|
    requires TokenAt(message, token, p)
    requires forall q :: from <= q < p ==> !TokenAt(message, token, q)
    ensures FirstToken(message, token, from, to) == p
  {
    FirstTokenLeast(message, token, from, to);
  }

  lemma {:induction false} FirstTokenNone<T>(message: seq<T>, token: seq<T>, from: nat, to: nat)
    requires to <= |message|
    requires forall q :: from <= q < to ==> !TokenAt(message, token, q)
    ensures FirstToken(message, token, from, to) == -1
    decreases if from < to then to - from else 0
  {
    if from < to {
      FirstTokenNone(message, token, from + 1, to);
    }
  }

  // ---------------------------------------------------------------- encoder

  function HeaderText(boundary: string, contentType: string): string {
    "\r\n--" + boundary + "\r\n" + "Content-Type: " + contentType + "\r\n\r\n"
  }

  function FooterText(boundary: string): string {
    "\r\n--" + boundary + "--"
  }

  /** Every part preceded by the header. */
  function Body(datasets: seq<seq<Byte>>, header: seq<Byte>): seq<Byte> {
    if datasets == [] then [] else header + datasets[0] + Body(datasets[1..], header)
  }

  function Zeros(n: nat): (z: seq<Byte>)
    ensures |z| == n && forall i :: 0 <= i < n ==> z[i] == 0
  {
    seq(n, _ => 0)
  }

  /**
   * The buffer `multipartEncode` returns: each part after a header, one footer, and then
   * the unused room left by sizing the buffer with one footer per part.
   */
  function Encoded(datasets: seq<seq<Byte>>, boundary: string, contentType: string): seq<Byte>
    requires |datasets| > 0
  {
    Layout(datasets, CharCodes(HeaderText(boundary, contentType)), CharCodes(FooterText(boundary)))
  }

  function Layout(datasets: seq<seq<Byte>>, header: seq<Byte>, footer: seq<Byte>): seq<Byte>
    requires |datasets| > 0
  {
    Body(datasets, header) + footer + Zeros((|datasets| - 1) * |footer|)
  }

  lemma BodyAppend(a: seq<seq<Byte>>, b: seq<seq<Byte>>, header: seq<Byte>)
    ensures Body(a + b, header) == Body(a, header) + Body(b, header)
  {
    if a == [] {
      assert a + b == b;
    } else {
      assert (a + b)[1..] == a[1..] + b;
      BodyAppend(a[1..], b, header);
    }
  }

  lemma BodySingle(d: seq<Byte>, header: seq<Byte>)
    ensures Body([d], header) == header + d
  {
    assert [d][1..] == [];
  }

  /** How `Body` grows by one part, seen from the written prefix and from the remaining suffix. */
  lemma BodyStep(datasets: seq<seq<Byte>>, header: seq<Byte>, k: nat)
    requires k < |datasets|
    ensures Body(datasets[..k + 1], header) == Body(datasets[..k], header) + header + datasets[k]
    ensures |Body(datasets[k..], header)| == |header| + |datasets[k]| + |Body(datasets[k + 1..], header)|
  {
    assert datasets[..k + 1] == datasets[..k] + [datasets[k]];
    BodyAppend(datasets[..k], [datasets[k]], header);
    BodySingle(datasets[k], header);
    assert datasets[k..][1..] == datasets[k + 1..];
  }

  /** Writing `s` over the start of the zero-filled room after `a`. */
  lemma OverwriteZeros(a: seq<Byte>, s: seq<Byte>, n: nat)
    requires |s| <= n
    ensures (a + Zeros(n))[..|a|] + s + (a + Zeros(n))[|a| + |s|..] == a + s + Zeros(n - |s|)
  {
    assert (a + Zeros(n))[..|a|] == a;
    assert (a + Zeros(n))[|a| + |s|..] == Zeros(n - |s|);
  }

  /** `target.set(source, position)`: throws RangeError when the source does not fit. */
  method Set(target: array<Byte>, source: seq<Byte>, position: nat) returns (ok: bool)
    modifies target
    ensures ok == (position + |source| <= target.Length)
    ensures ok ==> target[..] == old(target[..position]) + source + old(target[position + |source|..])
    ensures !ok ==> target[..] == old(target[..])
  {
    if position + |source| > target.Length {
      return false;
    }
    forall i | 0 <= i < |source| {
      target[position + i] := source[i];
    }
    assert target[..] == old(target[..position]) + source + old(target[position + |source|..]);
    return true;
  }

  /** The `datasets.map` pass of `multipartEncode`: room for a header, the part and a footer per part. */
  method PartsLength(datasets: seq<seq<Byte>>, header: seq<Byte>, footer: seq<Byte>) returns (length: nat)
    ensures length == |Body(datasets, header)| + |datasets| * |footer|
  {
    length := 0;
    for k := 0 to |datasets|
      invariant length == |Body(datasets[..k], header)| + k * |footer|
    {
      BodyStep(datasets, header, k);
      length := length + |header| + |datasets[k]| + |footer|;
    }
    assert datasets[..|datasets|] == datasets;
  }

  /** The `contentArrays.forEach` pass of `multipartEncode`: each part after a header, from the start of a zeroed buffer. */
  method WriteParts(buffer: array<Byte>, datasets: seq<seq<Byte>>, header: seq<Byte>) returns (position: nat)
    requires buffer[..] == Zeros(buffer.Length)
    requires |Body(datasets, header)| <= buffer.Length
    modifies buffer
    ensures position == |Body(datasets, header)|
    ensures buffer[..] == Body(datasets, header) + Zeros(buffer.Length - position)
  {
    position := 0;
    for k := 0 to |datasets|
      invariant position == |Body(datasets[..k], header)|
      invariant buffer.Length - position >= |Body(datasets[k..], header)|
      invariant buffer[..] == Body(datasets[..k], header) + Zeros(buffer.Length - position)
    {
      BodyStep(datasets, header, k);
      ghost var done := Body(datasets[..k], header);
      var ok := Set(buffer, header, position);
      OverwriteZeros(done, header, buffer.Length - position);
      ok := Set(buffer, datasets[k], position + |header|);
      OverwriteZeros(done + header, datasets[k], buffer.Length - position - |header|);
      position := position + |header| + |datasets[k]|;
    }
    assert datasets[..|datasets|] == datasets;
  }

  /** With one footer's room per part, the final footer fits exactly when there is a part. */
  lemma FooterRoom(n: nat, body: nat, footer: nat)
    requires footer > 0
    ensures body + footer <= body + n * footer <==> n > 0
    ensures n > 0 ==> body + n * footer - body - footer == (n - 1) * footer
  {
    if n > 0 {
      assert n * footer == (n - 1) * footer + footer;
    }
  }

  /** Encodes datasets into a single multipart body (multipart.ts lines 111-147). */
  method MultipartEncode(datasets: seq<seq<Byte>>, boundary: string, contentType: string)
    returns (r: Result<array<Byte>, Error>)
    ensures r.Failure? <==> |datasets| == 0
    ensures r.Failure? ==> r.error == RangeError
    ensures r.Success? ==> r.value[..] == Encoded(datasets, boundary, contentType)
  {
    var headerArray := StringToUint8Array(HeaderText(boundary, contentType));
    var footerArray := StringToUint8Array(FooterText(boundary));
    var header, footer := headerArray[..], footerArray[..];
    var length := PartsLength(datasets, header, footer);
    FooterRoom(|datasets|, |Body(datasets, header)|, |footer|);
    var buffer := new Byte[length](_ => 0);
    assert buffer[..] == Zeros(length);
    var position := WriteParts(buffer, datasets, header);
    var ok := Set(buffer, footer, position);
    if !ok {
      return Failure(RangeError);
    }
    OverwriteZeros(Body(datasets, header), footer, length - position);
    assert buffer[..] == Layout(datasets, header, footer);
    return Success(buffer);
  }

  // ---------------------------------------------------------------- decoder

  /** One round of the decoding loop: no boundary left, a last part, or a part and where to resume. */
  datatype Step = Done | Last(part: seq<Byte>) | Next(part: seq<Byte>, resume: nat)

  /**
   * The round of the decoding loop at `offset`: the bytes up to two before the next
   * boundary occurrence are a part; the search resumes after the next `\r\n\r\n` found
   * within 1000 bytes of that boundary, and stops when there is none.
   */
  function NextPart(message: seq<Byte>, boundary: seq<Byte>, offset: nat): (s: Step)
    requires offset <= |message|
    ensures s.Next? ==> offset < s.resume <= |message|
  {
    var boundaryIndex := FirstToken(message, boundary, offset, |message|);
    if boundaryIndex < 0 then Done
    else
      var part := Js.Slice(message, offset, boundaryIndex - SpacingLength);
      var from := boundaryIndex + 1;
      var boundaryEnd := FirstToken(message, Separator, from, SearchEnd(|message|, from, MaxSearchLength));
      if boundaryEnd < 0 then Last(part) else Next(part, boundaryEnd + |Separator|)
  }

  /** What the decoding loop returns when it stands at `offset` having found `found`. */
  function Parts(message: seq<Byte>, boundary: seq<Byte>, offset: nat, found: seq<seq<Byte>>): seq<seq<Byte>>
    requires offset <= |message|
    decreases |message| - offset
  {
    match NextPart(message, boundary, offset)
    case Done => found
    case Last(part) => found + [part]
    case Next(part, resume) => Parts(message, boundary, resume, found + [part])
  }

  /** What `multipartDecode` returns or throws for a message. */
  function Decoded(message: seq<Byte>): Result<seq<seq<Byte>>, Error> {
    var headerIndex := FirstToken(message, Separator, 0, SearchEnd(|message|, 0, MaxSearchLength));
    if headerIndex < 0 then Failure(MissingMimeHeader)
    else
      var header := BytesToString(message, 0, headerIndex);
      var boundary := FirstBoundaryLine(Js.Split(header, CRLF));
      if boundary.None? then Failure(MissingBoundary)
      else Success(Parts(message, CharCodes(boundary.value), headerIndex + |Separator|, []))
  }

  /** The part loop of `multipartDecode`, from the first byte after the message header. */
  method DecodeParts(message: seq<Byte>, boundary: seq<Byte>, start: nat) returns (components: seq<seq<Byte>>)
    requires start <= |message|
    ensures components == Parts(message, boundary, start, [])
  {
    components := [];
    var offset := start;
    var boundaryIndex := FindToken(message, boundary, offset, 0);
    while boundaryIndex != -1
      invariant offset <= |message|
      invariant boundaryIndex == FirstToken(message, boundary, offset, |message|)
      invariant Parts(message, boundary, offset, components) == Parts(message, boundary, start, [])
      decreases |message| - offset
    {
      var length := boundaryIndex - offset - SpacingLength;
      assert offset + length == boundaryIndex - SpacingLength;
      var data := Js.Slice(message, offset, offset + length);
      components := components + [data];
      var boundaryEnd := FindToken(message, Separator, boundaryIndex + 1, MaxSearchLength);
      if boundaryEnd == -1 {
        assert NextPart(message, boundary, offset) == Last(data);
        break;
      }
      assert NextPart(message, boundary, offset) == Next(data, boundaryEnd + |Separator|);
      offset := boundaryEnd + |Separator|;
      boundaryIndex := FindToken(message, boundary, offset, 0);
    }
  }

  /** Decodes a multipart/related message into its parts (multipart.ts lines 155-189). */
  method MultipartDecode(response: seq<Byte>) returns (r: Result<seq<seq<Byte>>, Error>)
    ensures r == Decoded(response)
  {
    var message := response;
    var separatorArray := StringToUint8Array("\r\n\r\n");
    var separator := separatorArray[..];
    assert separator == Separator;
    var headerIndex := FindToken(message, separator, 0, MaxSearchLength);
    if headerIndex == -1 {
      return Failure(MissingMimeHeader);
    }
    var header := Uint8ArrayToString(message, 0, headerIndex);
    assert header == BytesToString(message, 0, headerIndex);
    var boundaryString := IdentifyBoundary(header);
    if boundaryString.None? || boundaryString.value == "" {
      return Failure(MissingBoundary);
    }
    var boundaryArray := StringToUint8Array(boundaryString.value);
    var boundary := boundaryArray[..];
    var components := DecodeParts(message, boundary, headerIndex + |separator|);
    return Success(components);
  }

  // ---------------------------------------------------------------- error cases

  /** Decoding throws 'no multipart mime header' exactly when no `\r\n\r\n` starts within the first 1000 bytes. */
  lemma DecodeMissingHeader(message: seq<Byte>)
    ensures Decoded(message) == Failure(MissingMimeHeader) <==>
      forall q :: 0 <= q < SearchEnd(|message|, 0, MaxSearchLength) ==> !TokenAt(message, Separator, q)
  {
    FirstTokenLeast(message, Separator, 0, SearchEnd(|message|, 0, MaxSearchLength));
  }

  /** The message has a header within the first 1000 bytes, and none of its lines starts with `--`. */
  predicate HeaderWithoutBoundary(message: seq<Byte>) {
    var headerIndex := FirstToken(message, Separator, 0, SearchEnd(|message|, 0, MaxSearchLength));
    headerIndex >= 0 &&
    var lines := Js.Split(BytesToString(message, 0, headerIndex), CRLF);
    forall k :: 0 <= k < |lines| ==> !IsBoundaryLine(lines[k])
  }

  /** Decoding throws 'does not specify boundary' exactly when the header names no boundary line. */
  lemma DecodeMissingBoundary(message: seq<Byte>)
    ensures Decoded(message) == Failure(MissingBoundary) <==> HeaderWithoutBoundary(message)
  {
    var headerIndex := FirstToken(message, Separator, 0, SearchEnd(|message|, 0, MaxSearchLength));
    if headerIndex >= 0 {
      var lines := Js.Split(BytesToString(message, 0, headerIndex), CRLF);
      var boundary := FirstBoundaryLine(lines);
      if boundary.Some? {
        var k :| 0 <= k < |lines| && lines[k] == boundary.value && IsBoundaryLine(lines[k]);
      }
    }
  }

  // ---------------------------------------------------------------- round trip

  /** Characters a boundary or content type may hold for the round trip: single bytes other than CR. */
  predicate HeaderSafe(s: string) {
    forall i :: 0 <= i < |s| ==> (s[i] as int) < 0x100 && s[i] != '\r'
  }

  predicate NoCR(s: seq<Byte>) {
    forall i :: 0 <= i < |s| ==> s[i] != 13
  }

  lemma HeaderSafeBytes(s: string)
    requires HeaderSafe(s)
    ensures NoCR(CharCodes(s))
  {
    forall i | 0 <= i < |s| ensures CharCodes(s)[i] != 13 {
      assert CharCodes(s)[i] == s[i] as int;
    }
  }

  /** The boundary token of a boundary string, `--` included. */
  function Token(boundary: string): seq<Byte> {
    CharCodes("--" + boundary)
  }

  function ContentTypeLine(contentType: string): string {
    "Content-Type: " + contentType
  }

  /** The header text up to its closing `\r\n\r\n`. */
  function HeaderLines(boundary: string, contentType: string): string {
    "\r\n" + ("--" + boundary) + "\r\n" + ContentTypeLine(contentType)
  }

  /** The header and footer bytes in terms of the boundary token and the content type line. */
  lemma FrameBytes(boundary: string, contentType: string)
    ensures CharCodes(HeaderLines(boundary, contentType))
      == [13, 10] + Token(boundary) + [13, 10] + CharCodes(ContentTypeLine(contentType))
    ensures CharCodes(HeaderText(boundary, contentType)) == CharCodes(HeaderLines(boundary, contentType)) + Separator
    ensures CharCodes(FooterText(boundary)) == [13, 10] + Token(boundary) + [45, 45]
  {
    assert HeaderText(boundary, contentType) == HeaderLines(boundary, contentType) + "\r\n\r\n";
    assert FooterText(boundary) == "\r\n" + ("--" + boundary) + "--";
    assert CharCodes("\r\n") == [13, 10];
    assert CharCodes("\r\n\r\n") == Separator;
    assert CharCodes("--") == [45, 45];
    CharCodesAppend("\r\n", "--" + boundary);
    CharCodesAppend("\r\n" + ("--" + boundary), "\r\n");
    CharCodesAppend("\r\n" + ("--" + boundary) + "\r\n", ContentTypeLine(contentType));
    CharCodesAppend(HeaderLines(boundary, contentType), "\r\n\r\n");
    CharCodesAppend("\r\n" + ("--" + boundary), "--");
  }

  /** What a safe boundary and content type guarantee about the header's pieces. */
  lemma SafeFrame(boundary: string, contentType: string)
    requires HeaderSafe(boundary) && HeaderSafe(contentType)
    ensures HeaderSafe("--" + boundary) && HeaderSafe(ContentTypeLine(contentType))
    ensures Latin1(HeaderLines(boundary, contentType))
    ensures NoCR(Token(boundary)) && NoCR(CharCodes(ContentTypeLine(contentType)))
    ensures |Token(boundary)| == |boundary| + 2 && Token(boundary)[0] == 45
    ensures |CharCodes(ContentTypeLine(contentType))| == |contentType| + 14
  {
    var b, c := "--" + boundary, ContentTypeLine(contentType);
    forall i | 0 <= i < |b| ensures (b[i] as int) < 0x100 && b[i] != '\r' {
      if i >= 2 { assert b[i] == boundary[i - 2]; }
    }
    forall i | 0 <= i < |c| ensures (c[i] as int) < 0x100 && c[i] != '\r' {
      if i >= 14 { assert c[i] == contentType[i - 14]; }
    }
    var text := HeaderLines(boundary, contentType);
    forall i | 0 <= i < |text| ensures (text[i] as int) < 0x100 {
      if 2 <= i < 2 + |b| {
        assert text[i] == b[i - 2];
      } else if i >= 4 + |b| {
        assert text[i] == c[i - 4 - |b|];
      }
    }
    HeaderSafeBytes(b);
    HeaderSafeBytes(c);
  }

  /** A separator cannot start where the byte, or the byte two further on, is not CR. */
  lemma NotSeparatorAt(message: seq<Byte>, q: nat)
    requires q < |message| && (message[q] != 13 || (q + 2 < |message| && message[q + 2] != 13))
    ensures !TokenAt(message, Separator, q)
  {
    Js.OccursAtElements(message, Separator, q);
  }

  /** With no CR in `[from, to)`, no separator is found there. */
  lemma NoSeparator(message: seq<Byte>, from: nat, to: nat)
    requires to <= |message|
    requires forall q :: from <= q < to ==> message[q] != 13
    ensures FirstToken(message, Separator, from, to) == -1
  {
    forall q | from <= q < to ensures !TokenAt(message, Separator, q) {
      NotSeparatorAt(message, q);
    }
    FirstTokenNone(message, Separator, from, to);
  }

  /** What follows `at + |x|` when `x + y` follows `at`. */
  lemma SuffixAfter<T>(message: seq<T>, at: nat, x: seq<T>, y: seq<T>)
    requires at <= |message| && message[at..] == x + y
    ensures at + |x| <= |message| && message[at + |x|..] == y
  {
    assert message[at + |x|..] == message[at..][|x|..];
  }

  /** What follows the first two pieces when four follow `at`. */
  lemma SuffixAfterTwo<T>(message: seq<T>, at: nat, w: seq<T>, x: seq<T>, y: seq<T>, z: seq<T>)
    requires at <= |message| && message[at..] == w + x + y + z
    ensures at + |w| + |x| <= |message| && message[at + |w| + |x|..] == y + z
  {
    assert w + x + y + z == (w + x) + (y + z);
    SuffixAfter(message, at, w + x, y + z);
  }

  /**
   * The boundary search from the start of a part that is followed by CRLF and the token
   * stops right after that CRLF.
   */
  lemma NextBoundary(message: seq<Byte>, start: nat, part: seq<Byte>, token: seq<Byte>, tail: seq<Byte>)
    requires start <= |message| && message[start..] == part + [13, 10] + token + tail
    requires |token| > 0 && token[0] == 45 && NoCR(token)
    requires forall i :: 0 <= i ==> !TokenAt(part, token, i)
    ensures start + |part| + 2 <= |message| && message[start..start + |part|] == part
    ensures FirstToken(message, token, start, |message|) == start + |part| + 2
  {
    PartThenToken(message, start, part, token, tail);
    var p := start + |part| + 2;
    NoTokenBefore(message, start, part, token);
    Js.OccursAtSlice(message, token, p);
    FirstTokenIs(message, token, start, |message|, p);
  }

  /** Where a part followed by CRLF and the token stands in the message, element by element. */
  lemma PartThenToken(message: seq<Byte>, start: nat, part: seq<Byte>, token: seq<Byte>, tail: seq<Byte>)
    requires start <= |message| && message[start..] == part + [13, 10] + token + tail
    ensures start + |part| + 2 + |token| <= |message| && message[start..start + |part|] == part
    ensures message[start + |part|] == 13 && message[start + |part| + 1] == 10
    ensures message[start + |part| + 2..start + |part| + 2 + |token|] == token
  {
    var e := start + |part|;
    var p := e + 2;
    SuffixAfter(message, start, part, [13, 10] + token + tail);
    assert message[start..e] == part by {
      assert message[start..e] == message[start..][..|part|];
    }
    assert message[e] == 13 && message[e + 1] == 10 by {
      assert message[e..][0] == 13 && message[e..][1] == 10;
    }
    SuffixAfter(message, e, [13, 10], token + tail);
    assert message[p..p + |token|] == token by {
      assert message[p..p + |token|] == message[p..][..|token|];
    }
  }

  /** A token that does not occur in `part` does not start in `part` followed by CRLF either. */
  lemma NoTokenBefore(message: seq<Byte>, start: nat, part: seq<Byte>, token: seq<Byte>)
    requires start + |part| + 2 <= |message| && message[start..start + |part|] == part
    requires message[start + |part|] == 13 && message[start + |part| + 1] == 10
    requires |token| > 0 && token[0] == 45 && NoCR(token)
    requires forall i :: 0 <= i ==> !TokenAt(part, token, i)
    ensures forall q :: start <= q < start + |part| + 2 ==> !TokenAt(message, token, q)
  {
    var e := start + |part|;
    forall q | start <= q < e + 2 ensures !TokenAt(message, token, q) {
      if q + |token| <= e {
        TokenInside(message, start, part, token, q);
      } else {
        TokenAcrossCR(message, token, q, if q <= e then e else e + 1);
      }
    }
  }

  /** Inside a stretch of the message equal to `part`, the token occurs where it occurs in `part`. */
  lemma TokenInside(message: seq<Byte>, start: nat, part: seq<Byte>, token: seq<Byte>, q: nat)
    requires start <= q && q + |token| <= start + |part| <= |message|
    requires message[start..start + |part|] == part
    ensures TokenAt(message, token, q) == TokenAt(part, token, q - start)
  {
    Js.OccursAtElements(message, token, q);
    Js.OccursAtElements(part, token, q - start);
    var w := message[start..start + |part|];
    forall j | 0 <= j < |part| ensures w[j] == message[start + j] { }
  }

  /** A token that begins with `-` and holds no CR does not occur across a CR or an LF. */
  lemma TokenAcrossCR(message: seq<Byte>, token: seq<Byte>, q: nat, c: nat)
    requires |token| > 0 && token[0] == 45 && NoCR(token)
    requires q <= c < q + |token| && c < |message|
    requires message[c] == 13 || (c == q && message[c] == 10)
    ensures !TokenAt(message, token, q)
  {
    Js.OccursAtElements(message, token, q);
    if q + |token| <= |message| {
      assert token[c - q] != message[c];
    }
  }

  /**
   * After the token, the separator search finds the `\r\n\r\n` that ends the next header,
   * as long as the header is short enough to fall inside the 1000-byte window.
   */
  lemma NextSeparator(message: seq<Byte>, at: nat, token: seq<Byte>, line: seq<Byte>, tail: seq<Byte>)
    requires at <= |message| && message[at..] == token + ([13, 10] + line + Separator + tail)
    requires |token| > 0 && |line| > 0 && NoCR(token) && NoCR(line)
    requires |token| + |line| + 2 < MaxSearchLength
    ensures FirstToken(message, Separator, at + 1, SearchEnd(|message|, at + 1, MaxSearchLength))
      == at + |token| + 2 + |line|
    ensures at + |token| + |line| + 6 <= |message| && message[at + |token| + |line| + 6..] == tail
  {
    TokenLineAt(message, at, token, line, tail);
    var e := at + |token| + 2 + |line|;
    forall q | at + 1 <= q < e ensures !TokenAt(message, Separator, q) {
      if q < at + |token| {
        assert message[q] == token[q - at];
      } else if q == at + |token| {
        assert message[q + 2] == line[0];
      } else if q > at + |token| + 1 {
        assert message[q] == line[q - at - |token| - 2];
      }
      NotSeparatorAt(message, q);
    }
    Js.OccursAtSlice(message, Separator, e);
    FirstTokenIs(message, Separator, at + 1, SearchEnd(|message|, at + 1, MaxSearchLength), e);
  }

  /** Where a token, CRLF, a line and the separator stand in the message, element by element. */
  lemma TokenLineAt(message: seq<Byte>, at: nat, token: seq<Byte>, line: seq<Byte>, tail: seq<Byte>)
    requires at <= |message| && message[at..] == token + ([13, 10] + line + Separator + tail)
    ensures at + |token| + |line| + 6 <= |message|
    ensures forall i :: 0 <= i < |token| ==> message[at + i] == token[i]
    ensures message[at + |token|] == 13 && message[at + |token| + 1] == 10
    ensures forall i :: 0 <= i < |line| ==> message[at + |token| + 2 + i] == line[i]
    ensures message[at + |token| + 2 + |line|..at + |token| + |line| + 6] == Separator
    ensures message[at + |token| + |line| + 6..] == tail
  {
    var rest := [13, 10] + line + Separator + tail;
    SuffixAfter(message, at, token, rest);
    forall i | 0 <= i < |token| ensures message[at + i] == token[i] {
      assert message[at..][i] == message[at + i];
    }
    var l := at + |token|;
    assert message[l..][0] == 13 && message[l..][1] == 10;
    SuffixAfterTwo(message, l, [13, 10], line, Separator, tail);
    var p := l + 2;
    forall i | 0 <= i < |line| ensures message[p + i] == line[i] {
      assert message[p..][i] == message[p + i];
    }
    assert line + Separator + tail == line + (Separator + tail);
    SuffixAfter(message, p, line, Separator + tail);
    var e := p + |line|;
    assert message[e..e + 4] == message[e..][..4];
    SuffixAfter(message, e, Separator, tail);
  }

  /** The first `\r\n\r\n` of an encoded message ends its first header. */
  lemma HeaderEnd(message: seq<Byte>, token: seq<Byte>, line: seq<Byte>, tail: seq<Byte>)
    requires message == [13, 10] + token + [13, 10] + line + Separator + tail
    requires |token| > 0 && token[0] == 45 && NoCR(token)
    requires |line| > 0 && NoCR(line)
    requires 4 + |token| + |line| < MaxSearchLength
    ensures FirstToken(message, Separator, 0, SearchEnd(|message|, 0, MaxSearchLength)) == 4 + |token| + |line|
  {
    var e := 4 + |token| + |line|;
    forall q | 0 <= q < e ensures !TokenAt(message, Separator, q) {
      NotSeparatorAt(message, q);
    }
    Js.OccursAtElements(message, Separator, e);
    FirstTokenIs(message, Separator, 0, SearchEnd(|message|, 0, MaxSearchLength), e);
  }

  /** `Parts` after a round that yields a last part. */
  lemma PartsLast(message: seq<Byte>, boundary: seq<Byte>, offset: nat, found: seq<seq<Byte>>, part: seq<Byte>)
    requires offset <= |message| && NextPart(message, boundary, offset) == Last(part)
    ensures Parts(message, boundary, offset, found) == found + [part]
  {
  }

  /** `Parts` after a round that yields a part and resumes. */
  lemma PartsNext(message: seq<Byte>, boundary: seq<Byte>, offset: nat, found: seq<seq<Byte>>, part: seq<Byte>, resume: nat)
    requires offset <= |message| && NextPart(message, boundary, offset) == Next(part, resume)
    ensures Parts(message, boundary, offset, found) == Parts(message, boundary, resume, found + [part])
  {
  }

  /** One round of the decoding loop, once both searches of that round are known. */
  lemma NextPartAt(message: seq<Byte>, token: seq<Byte>, start: nat, part: seq<Byte>, boundaryEnd: int)
    requires start + |part| + 2 <= |message| && message[start..start + |part|] == part
    requires FirstToken(message, token, start, |message|) == start + |part| + 2
    requires var from := start + |part| + 3;
      FirstToken(message, Separator, from, SearchEnd(|message|, from, MaxSearchLength)) == boundaryEnd
    ensures NextPart(message, token, start) == if boundaryEnd < 0 then Last(part) else Next(part, boundaryEnd + |Separator|)
  {
    Js.SliceWithin(message, start, start + |part|);
  }

  /** The round at the last part of an encoded body yields that part and stops. */
  lemma LastPartOfLayout(message: seq<Byte>, start: nat, part: seq<Byte>, token: seq<Byte>, zeros: seq<Byte>)
    requires start <= |message| && message[start..] == part + [13, 10] + token + ([45, 45] + zeros)
    requires |token| > 0 && token[0] == 45 && NoCR(token)
    requires forall i :: 0 <= i < |zeros| ==> zeros[i] == 0
    requires forall i :: 0 <= i ==> !TokenAt(part, token, i)
    ensures NextPart(message, token, start) == Last(part)
  {
    var boundaryIndex := start + |part| + 2;
    var from := boundaryIndex + 1;
    var window := SearchEnd(|message|, from, MaxSearchLength);
    PartThenToken(message, start, part, token, [45, 45] + zeros);
    NextBoundary(message, start, part, token, [45, 45] + zeros);
    AfterToken(message, start, part, token, [45, 45] + zeros);
    forall q | from <= q < window ensures message[q] != 13 {
      assert message[q] == message[from..][q - from];
    }
    NoSeparator(message, from, window);
    NextPartAt(message, token, start, part, -1);
  }

  /** What follows the first byte of the token after a part. */
  lemma AfterToken(message: seq<Byte>, start: nat, part: seq<Byte>, token: seq<Byte>, tail: seq<Byte>)
    requires start <= |message| && message[start..] == part + [13, 10] + token + tail
    requires |token| > 0
    ensures start + |part| + 3 <= |message| && message[start + |part| + 3..] == token[1..] + tail
  {
    SuffixAfter(message, start, part + [13, 10] + token[..1], token[1..] + tail);
  }

  /** The round at a part followed by another yields the part and resumes at the next part. */
  lemma NextPartOfLayout(message: seq<Byte>, start: nat, part: seq<Byte>, token: seq<Byte>, line: seq<Byte>, next: seq<Byte>)
    requires start <= |message| && message[start..] == part + [13, 10] + token + ([13, 10] + line + Separator + next)
    requires |token| > 0 && token[0] == 45 && NoCR(token)
    requires |line| > 0 && NoCR(line)
    requires |token| + |line| + 2 < MaxSearchLength
    requires forall i :: 0 <= i ==> !TokenAt(part, token, i)
    ensures var resume := start + |part| + |token| + |line| + 8;
      resume <= |message| && NextPart(message, token, start) == Next(part, resume) && message[resume..] == next
  {
    var tail := [13, 10] + line + Separator + next;
    var boundaryIndex := start + |part| + 2;
    NextBoundary(message, start, part, token, tail);
    SuffixAfterTwo(message, start, part, [13, 10], token, tail);
    NextSeparator(message, boundaryIndex, token, line, next);
    NextPartAt(message, token, start, part, boundaryIndex + |token| + 2 + |line|);
  }

  /**
   * Decoding from the start of a part of an encoded body yields that part and every part
   * after it.
   */
  lemma {:induction false} PartsOfLayout(message: seq<Byte>, start: nat, datasets: seq<seq<Byte>>,
      found: seq<seq<Byte>>, header: seq<Byte>, footer: seq<Byte>, token: seq<Byte>, line: seq<Byte>, zeros: seq<Byte>)
    requires |datasets| > 0
    requires start <= |message| && message[start..] == datasets[0] + Body(datasets[1..], header) + footer + zeros
    requires header == [13, 10] + token + [13, 10] + line + Separator
    requires footer == [13, 10] + token + [45, 45]
    requires |token| > 0 && token[0] == 45 && NoCR(token)
    requires |line| > 0 && NoCR(line)
    requires |token| + |line| + 2 < MaxSearchLength
    requires forall i :: 0 <= i < |zeros| ==> zeros[i] == 0
    requires forall k, i :: 0 <= k < |datasets| && 0 <= i ==> !TokenAt(datasets[k], token, i)
    ensures Parts(message, token, start, found) == found + datasets
    decreases |datasets|
  {
    var part := datasets[0];
    if |datasets| == 1 {
      LastOfLayout(message, start, datasets, header, footer, token, line, zeros);
      PartsLast(message, token, start, found, part);
      assert datasets == [part];
    } else {
      var resume := start + |part| + |token| + |line| + 8;
      NextOfLayout(message, start, datasets, header, footer, token, line, zeros);
      PartsNext(message, token, start, found, part, resume);
      PartsOfLayout(message, resume, datasets[1..], found + [part], header, footer, token, line, zeros);
      Js.AppendHeadTail(found, datasets);
    }
  }

  /** The round at the only remaining part of an encoded body. */
  lemma LastOfLayout(message: seq<Byte>, start: nat, datasets: seq<seq<Byte>>,
      header: seq<Byte>, footer: seq<Byte>, token: seq<Byte>, line: seq<Byte>, zeros: seq<Byte>)
    requires |datasets| == 1
    requires start <= |message| && message[start..] == datasets[0] + Body(datasets[1..], header) + footer + zeros
    requires footer == [13, 10] + token + [45, 45]
    requires |token| > 0 && token[0] == 45 && NoCR(token)
    requires forall i :: 0 <= i < |zeros| ==> zeros[i] == 0
    requires forall i :: 0 <= i ==> !TokenAt(datasets[0], token, i)
    ensures NextPart(message, token, start) == Last(datasets[0])
  {
    assert datasets[1..] == [];
    assert message[start..] == datasets[0] + [13, 10] + token + ([45, 45] + zeros);
    LastPartOfLayout(message, start, datasets[0], token, zeros);
  }

  /** The round at a part of an encoded body that has more parts after it. */
  lemma NextOfLayout(message: seq<Byte>, start: nat, datasets: seq<seq<Byte>>,
      header: seq<Byte>, footer: seq<Byte>, token: seq<Byte>, line: seq<Byte>, zeros: seq<Byte>)
    requires |datasets| > 1
    requires start <= |message| && message[start..] == datasets[0] + Body(datasets[1..], header) + footer + zeros
    requires header == [13, 10] + token + [13, 10] + line + Separator
    requires |token| > 0 && token[0] == 45 && NoCR(token)
    requires |line| > 0 && NoCR(line)
    requires |token| + |line| + 2 < MaxSearchLength
    requires forall i :: 0 <= i ==> !TokenAt(datasets[0], token, i)
    ensures var resume := start + |datasets[0]| + |token| + |line| + 8;
      resume <= |message| && NextPart(message, token, start) == Next(datasets[0], resume) &&
      message[resume..] == datasets[1..][0] + Body(datasets[1..][1..], header) + footer + zeros
  {
    var next := datasets[1] + Body(datasets[2..], header) + footer + zeros;
    assert datasets[1..][0] == datasets[1] && datasets[1..][1..] == datasets[2..];
    assert message[start..] == datasets[0] + [13, 10] + token + ([13, 10] + line + Separator + next);
    NextPartOfLayout(message, start, datasets[0], token, line, next);
  }

  /** No CRLF starts inside a line without CR, whatever follows it. */
  lemma NoLineBreakIn(x: string, y: string)
    requires HeaderSafe(x)
    ensures forall j :: 0 <= j < |x| ==> !Js.OccursAt(x + y, CRLF, j)
  {
    forall j | 0 <= j < |x| ensures !Js.OccursAt(x + y, CRLF, j) {
      Js.OccursAtElements(x + y, CRLF, j);
      assert (x + y)[j] == x[j];
    }
  }

  /** Two lines after an empty one: splitting at CRLF gives the three lines back. */
  lemma SplitThreeLines(b: string, c: string)
    requires HeaderSafe(b) && HeaderSafe(c)
    ensures Js.Split(CRLF + b + CRLF + c, CRLF) == ["", b, c]
  {
    assert CRLF + b + CRLF + c == "" + CRLF + (b + CRLF + c);
    Js.SplitFirst("", CRLF, b + CRLF + c);
    NoLineBreakIn(b, CRLF + c);
    assert b + CRLF + c == b + (CRLF + c);
    Js.SplitFirst(b, CRLF, c);
    NoLineBreakIn(c, []);
    assert c + [] == c;
    Js.SplitNoSeparator(c, CRLF);
  }

  /** Reading back bytes that are the codes of a single-byte string gives the string. */
  lemma ReadBack(message: seq<Byte>, s: string)
    requires Latin1(s) && 0 < |s| <= |message| && message[..|s|] == CharCodes(s)
    ensures BytesToString(message, 0, |s|) == s
  {
    forall i | 0 <= i < |s| ensures CharAt(message, i) == s[i] {
      assert message[..|s|][i] == message[i];
    }
  }

  /** The decoder reads the boundary line of an encoder header back as the boundary. */
  lemma BoundaryOfHeader(message: seq<Byte>, boundary: string, contentType: string, n: nat)
    requires HeaderSafe(boundary) && HeaderSafe(contentType)
    requires n == |HeaderLines(boundary, contentType)| <= |message|
    requires message[..n] == CharCodes(HeaderLines(boundary, contentType))
    ensures FirstBoundaryLine(Js.Split(BytesToString(message, 0, n), CRLF)) == Some("--" + boundary)
  {
    var text := HeaderLines(boundary, contentType);
    SafeFrame(boundary, contentType);
    ReadBack(message, text);
    assert text == CRLF + ("--" + boundary) + CRLF + ContentTypeLine(contentType);
    SplitThreeLines("--" + boundary, ContentTypeLine(contentType));
    var lines := ["", "--" + boundary, ContentTypeLine(contentType)];
    assert lines[1..][0] == "--" + boundary && ("--" + boundary)[..2] == "--";
  }

  /** The result of decoding once the header's end and its boundary line are known. */
  lemma DecodedWith(message: seq<Byte>, headerIndex: nat, boundaryLine: string)
    requires FirstToken(message, Separator, 0, SearchEnd(|message|, 0, MaxSearchLength)) == headerIndex
    requires FirstBoundaryLine(Js.Split(BytesToString(message, 0, headerIndex), CRLF)) == Some(boundaryLine)
    ensures headerIndex + |Separator| <= |message|
    ensures Decoded(message) == Success(Parts(message, CharCodes(boundaryLine), headerIndex + |Separator|, []))
  {
  }

  /** Decoding yields the parts found after the header, once those are known. */
  lemma DecodedFrom(message: seq<Byte>, headerIndex: nat, boundaryLine: string, parts: seq<seq<Byte>>)
    requires FirstToken(message, Separator, 0, SearchEnd(|message|, 0, MaxSearchLength)) == headerIndex
    requires FirstBoundaryLine(Js.Split(BytesToString(message, 0, headerIndex), CRLF)) == Some(boundaryLine)
    requires headerIndex + |Separator| <= |message|
    requires Parts(message, CharCodes(boundaryLine), headerIndex + |Separator|, []) == parts
    ensures Decoded(message) == Success(parts)
  {
    DecodedWith(message, headerIndex, boundaryLine);
  }

  /**
   * Round trip: decoding what `multipartEncode` produced gives back the datasets, provided
   * there is at least one, the boundary and content type are single-byte text without CR and
   * short enough for the header to end within the 1000-byte window, and no part contains the
   * boundary token.
   */
  lemma DecodeEncode(datasets: seq<seq<Byte>>, boundary: string, contentType: string)
    requires |datasets| > 0
    requires HeaderSafe(boundary) && HeaderSafe(contentType)
    requires |boundary| + |contentType| <= 979
    requires forall k, i :: 0 <= k < |datasets| && 0 <= i ==> !TokenAt(datasets[k], Token(boundary), i)
    ensures Decoded(Encoded(datasets, boundary, contentType)) == Success(datasets)
  {
    var token, line := Token(boundary), CharCodes(ContentTypeLine(contentType));
    var footer := [13, 10] + token + [45, 45];
    SafeFrame(boundary, contentType);
    EncodedLayout(datasets, boundary, contentType);
    assert CharCodes("--" + boundary) == token;
    var message := Encoded(datasets, boundary, contentType);
    var n := 4 + |token| + |line|;
    EncodedBoundaryLine(message, datasets, boundary, contentType, n);
    LayoutParts(message, datasets, token, line, footer, Zeros((|datasets| - 1) * |footer|), n);
    DecodedFrom(message, n, "--" + boundary, datasets);
  }

  /** An encoded body is the first header, the first part, the rest of the body, the footer and the zeros. */
  lemma EncodedLayout(datasets: seq<seq<Byte>>, boundary: string, contentType: string)
    requires |datasets| > 0
    ensures var token, line := Token(boundary), CharCodes(ContentTypeLine(contentType));
      var header, footer := [13, 10] + token + [13, 10] + line + Separator, [13, 10] + token + [45, 45];
      Encoded(datasets, boundary, contentType)
        == header + (datasets[0] + Body(datasets[1..], header) + footer + Zeros((|datasets| - 1) * |footer|))
  {
    FrameBytes(boundary, contentType);
    LayoutStart(datasets, CharCodes(HeaderText(boundary, contentType)), CharCodes(FooterText(boundary)));
  }

  /** The header of an encoded body names its boundary line. */
  lemma EncodedBoundaryLine(message: seq<Byte>, datasets: seq<seq<Byte>>, boundary: string, contentType: string, n: nat)
    requires |datasets| > 0
    requires HeaderSafe(boundary) && HeaderSafe(contentType)
    requires message == Encoded(datasets, boundary, contentType)
    requires n == 4 + |Token(boundary)| + |CharCodes(ContentTypeLine(contentType))|
    ensures n <= |message| && FirstBoundaryLine(Js.Split(BytesToString(message, 0, n), CRLF)) == Some("--" + boundary)
  {
    FrameBytes(boundary, contentType);
    assert n == |CharCodes(HeaderLines(boundary, contentType))|;
    EncodedStartsWithLines(message, datasets, boundary, contentType);
    BoundaryOfHeader(message, boundary, contentType, n);
  }

  /** An encoded body starts with the lines of its first header. */
  lemma EncodedStartsWithLines(message: seq<Byte>, datasets: seq<seq<Byte>>, boundary: string, contentType: string)
    requires |datasets| > 0
    requires message == Encoded(datasets, boundary, contentType)
    ensures var lines := CharCodes(HeaderLines(boundary, contentType));
      |lines| <= |message| && message[..|lines|] == lines
  {
    var header, footer := CharCodes(HeaderText(boundary, contentType)), CharCodes(FooterText(boundary));
    var lines := CharCodes(HeaderLines(boundary, contentType));
    FrameBytes(boundary, contentType);
    var zeros := Zeros((|datasets| - 1) * |footer|);
    LayoutStart(datasets, header, footer);
    SplitThree(message, lines, Separator, datasets[0] + Body(datasets[1..], header) + footer + zeros);
  }

  /**
   * In a body laid out as a header line with the boundary token, a content type line, and
   * the parts after it, each followed by the next header or the footer, the header ends after
   * its two lines and the parts found after it are the datasets.
   */
  lemma LayoutParts(message: seq<Byte>, datasets: seq<seq<Byte>>, token: seq<Byte>, line: seq<Byte>,
      footer: seq<Byte>, zeros: seq<Byte>, n: nat)
    requires |datasets| > 0
    requires |token| > 0 && token[0] == 45 && NoCR(token)
    requires |line| > 0 && NoCR(line) && |token| + |line| + 4 < MaxSearchLength
    requires footer == [13, 10] + token + [45, 45]
    requires forall i :: 0 <= i < |zeros| ==> zeros[i] == 0
    requires forall k, i :: 0 <= k < |datasets| && 0 <= i ==> !TokenAt(datasets[k], token, i)
    requires var header := [13, 10] + token + [13, 10] + line + Separator;
      message == header + (datasets[0] + Body(datasets[1..], header) + footer + zeros)
    requires n == 4 + |token| + |line|
    ensures FirstToken(message, Separator, 0, SearchEnd(|message|, 0, MaxSearchLength)) == n
    ensures n + |Separator| <= |message| && Parts(message, token, n + |Separator|, []) == datasets
  {
    var header := [13, 10] + token + [13, 10] + line + Separator;
    var rest := datasets[0] + Body(datasets[1..], header) + footer + zeros;
    assert message == [13, 10] + token + [13, 10] + line + Separator + rest;
    HeaderEnd(message, token, line, rest);
    assert message[|header|..] == rest;
    PartsOfLayout(message, |header|, datasets, [], header, footer, token, line, zeros);
    assert [] + datasets == datasets;
  }

  /** An encoded body starts with the first header and the first part. */
  lemma LayoutStart(datasets: seq<seq<Byte>>, header: seq<Byte>, footer: seq<Byte>)
    requires |datasets| > 0
    ensures Layout(datasets, header, footer)
      == header + (datasets[0] + Body(datasets[1..], header) + footer + Zeros((|datasets| - 1) * |footer|))
  {
  }

  /** The pieces of a sequence made of three. */
  lemma SplitThree<T>(message: seq<T>, x: seq<T>, y: seq<T>, z: seq<T>)
    requires message == x + y + z
    ensures message[..|x|] == x && message[|x| + |y|..] == z
  {
  }
}

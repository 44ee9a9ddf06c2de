/**
 * Decoding and display formatting of DICOM values by value representation (vr.ts): the
 * byte layer of `decodeValue`, and `formatTime`, `formatDate`, `formatPersonName`,
 * `formatPatientSex` and `formatValue`. The DA and TM forms are those of the
 * value-representation table of DICOM PS3.5 section 6.2.
 */
module Vr {
  import opened Wrappers
  import Js
  import Base64
  import Multipart
  import opened DicomJson

  type Byte = Js.Byte

  // ---------------------------------------------------------------- decodeValue

  /** The `encodedValue` argument: inline base64 text, a list of bulk-data buffers, or nothing. */
  datatype Encoded = Absent | Inline(text: string) | Buffers(buffers: seq<seq<Byte>>)

  /**
   * What `decodeValue` returns: `null`, the unsigned 32-bit words of an OL value, the
   * four- or eight-byte groups of an OF or OD value (each an IEEE float), or the bytes
   * handed to `TextDecoder` for any other value representation.
   */
  datatype Decoded = Null | Words(words: seq<int>) | Float32s(groups: seq<seq<Byte>>) | Float64s(groups: seq<seq<Byte>>) | Text(bytes: seq<Byte>)

  /** `atob` throws on malformed base64; a typed array over a buffer whose length is not a multiple of its element size throws. */
  datatype DecodeError = InvalidCharacterError | RangeError

  /** A binary string: one character per byte. */
  function BinaryString(bytes: seq<Byte>): (s: string)
    ensures |s| == |bytes| && forall i :: 0 <= i < |s| ==> s[i] as int == bytes[i]
  {
    seq(|bytes|, i requires 0 <= i < |bytes| => bytes[i] as char)
  }

  lemma CharCodesOfBinaryString(bytes: seq<Byte>)
    ensures Multipart.CharCodes(BinaryString(bytes)) == bytes
  {
  }

  /** Consecutive groups of `width` bytes: the elements of a `Uint32Array`, `Float32Array` or `Float64Array`. */
  function Groups(bytes: seq<Byte>, width: nat): (gs: seq<seq<Byte>>)
    requires width == 4 || width == 8
    requires |bytes| % width == 0
    ensures width == 4 ==> 4 * |gs| == |bytes| && forall k :: 0 <= k < |gs| ==> gs[k] == bytes[4 * k..4 * k + 4]
    ensures width == 8 ==> 8 * |gs| == |bytes| && forall k :: 0 <= k < |gs| ==> gs[k] == bytes[8 * k..8 * k + 8]
    decreases |bytes|
  {
    if |bytes| == 0 then []
    else
      var rest := Groups(bytes[width..], width);
      assert forall k :: 0 < k <= |rest| ==> ([bytes[..width]] + rest)[k] == rest[k - 1];
      [bytes[..width]] + rest
  }

  /** The groups, laid end to end, are the bytes. */
  lemma {:induction false} GroupsFlatten(bytes: seq<Byte>, width: nat)
    requires width == 4 || width == 8
    requires |bytes| % width == 0
    ensures Js.Flatten(Groups(bytes, width)) == bytes
    decreases |bytes|
  {
    if |bytes| > 0 {
      var gs := Groups(bytes, width);
      assert gs[0] == bytes[..width] && gs[1..] == Groups(bytes[width..], width);
      GroupsFlatten(bytes[width..], width);
      assert bytes == bytes[..width] + bytes[width..];
    }
  }

  /** A little-endian unsigned 32-bit word. */
  function Word(g: seq<Byte>): (w: int)
    requires |g| == 4
    ensures 0 <= w < 0x1_0000_0000
  {
    g[0] as int + 0x100 * (g[1] as int) + 0x1_0000 * (g[2] as int) + 0x100_0000 * (g[3] as int)
  }

  /** `new Uint32Array(buffer)` on a little-endian platform: word `k` is made of bytes `4k` to `4k + 3`. */
  function Words32(bytes: seq<Byte>): (ws: seq<int>)
    requires |bytes| % 4 == 0
    ensures 4 * |ws| == |bytes|
    ensures forall k :: 0 <= k < |ws| ==> ws[k] == Word(bytes[4 * k..4 * k + 4])
  {
    var gs := Groups(bytes, 4);
    seq(|gs|, k requires 0 <= k < |gs| => Word(gs[k]))
  }

  /** The typed view of a buffer for a value representation. */
  function View(vr: string, buffer: seq<Byte>): (r: Result<Decoded, DecodeError>)
    ensures r.Failure? <==> ((vr == "OL" || vr == "OF") && |buffer| % 4 != 0) || (vr == "OD" && |buffer| % 8 != 0)
  {
    if vr == "OL" then (if |buffer| % 4 == 0 then Success(Words(Words32(buffer))) else Failure(RangeError))
    else if vr == "OF" then (if |buffer| % 4 == 0 then Success(Float32s(Groups(buffer, 4))) else Failure(RangeError))
    else if vr == "OD" then (if |buffer| % 8 == 0 then Success(Float64s(Groups(buffer, 8))) else Failure(RangeError))
    else Success(Text(buffer))
  }

  /** What `decodeValue(vr, encodedValue)` returns or throws. */
  function DecodedValue(vr: string, encoded: Encoded): Result<Decoded, DecodeError> {
    match encoded
    case Absent => Success(Null)
    case Inline(text) =>
      if text == "" then Success(Null)
      else
        (match Base64.Atob(text)
         case Failure(_) => Failure(InvalidCharacterError)
         case Success(bytes) => View(vr, bytes))
    case Buffers(buffers) => View(vr, if |buffers| > 0 then buffers[0] else [])
  }

  /** Decodes an inline or bulk-data value (vr.ts lines 5-35). */
  method DecodeValue(vr: string, encoded: Encoded) returns (r: Result<Decoded, DecodeError>)
    ensures r == DecodedValue(vr, encoded)
  {
    var buffer: seq<Byte>;
    match encoded {
      case Absent =>
        return Success(Null);
      case Inline(text) =>
        if text == "" {
          return Success(Null);
        }
        var decoded := Base64.Atob(text);
        if decoded.Failure? {
          return Failure(InvalidCharacterError);
        }
        var decodedValue := BinaryString(decoded.value);
        var byteArray := Multipart.StringToUint8Array(decodedValue);
        CharCodesOfBinaryString(decoded.value);
        buffer := byteArray[..];
      case Buffers(buffers) =>
        buffer := if |buffers| > 0 then buffers[0] else [];
    }
    r := View(vr, buffer);
  }

  /** Inline OL data decodes to the words of the bytes it encodes, and to `null` when there are none. */
  lemma DecodeInlineWords(bytes: seq<Byte>)
    requires |bytes| % 4 == 0
    ensures DecodedValue("OL", Inline(Base64.Encode(bytes)))
      == if bytes == [] then Success(Null) else Success(Words(Words32(bytes)))
  {
    Base64.AtobEncode(bytes);
    if bytes != [] {
      assert |Base64.Encode(bytes)| > 0 by {
        assert |Base64.EncodeSextets(bytes)| > 0;
      }
    }
  }

  /** A value whose inline base64 does not decode makes `decodeValue` throw, whatever the value representation. */
  lemma DecodeInvalidInline(vr: string, text: string)
    requires text != "" && Base64.Atob(text).Failure?
    ensures DecodedValue(vr, Inline(text)) == Failure(InvalidCharacterError)
  {
  }

  // ---------------------------------------------------------------- string comparison

  /** `a < b` on strings (section 7.2.13 of ECMA-262): by code unit, a proper prefix first. */
  predicate StringLess(a: string, b: string)
    decreases |a|
  {
    |b| > 0 && (|a| == 0 || a[0] < b[0] || (a[0] == b[0] && StringLess(a[1..], b[1..])))
  }

  predicate StringLessEq(a: string, b: string) {
    !StringLess(b, a)
  }

  predicate IsDigit(c: char) {
    '0' <= c <= '9'
  }

  predicate AllDigits(s: string) {
    forall i :: 0 <= i < |s| ==> IsDigit(s[i])
  }

  function DigitValue(c: char): int {
    c as int - '0' as int
  }

  /** The number two decimal digits stand for. */
  function TwoDigits(s: string): (n: int)
    requires |s| == 2 && AllDigits(s)
    ensures 0 <= n < 100
  {
    10 * DigitValue(s[0]) + DigitValue(s[1])
  }

  /** On two-digit strings, string order is numeric order. */
  lemma StringOrderOfTwoDigits(a: string, b: string)
    requires |a| == 2 && |b| == 2 && AllDigits(a) && AllDigits(b)
    ensures StringLessEq(a, b) <==> TwoDigits(a) <= TwoDigits(b)
  {
    assert !StringLess(b[1..][1..], a[1..][1..]);
    assert StringLess(b[1..], a[1..]) <==> b[1] < a[1];
    assert StringLess(b, a) <==> b[0] < a[0] || (b[0] == a[0] && b[1] < a[1]);
  }

  // ---------------------------------------------------------------- formatTime

  /** The groups of `^(\d{2})(\d{2})(\d{2})(\.(\d{1,6}))?$`, the absent fraction as "". */
  datatype TimeMatch = TimeMatch(hours: string, minutes: string, seconds: string, fraction: string)

  function MatchTime(t: string): (m: Option<TimeMatch>)
    ensures m.Some? ==> |m.value.hours| == 2 && |m.value.minutes| == 2 && |m.value.seconds| == 2
    ensures m.Some? ==> AllDigits(m.value.hours) && AllDigits(m.value.minutes) && AllDigits(m.value.seconds)
    ensures m.Some? ==> |m.value.fraction| <= 6 && AllDigits(m.value.fraction)
  {
    if |t| >= 6 && AllDigits(t[..6]) && (|t| == 6 || (t[6] == '.' && 8 <= |t| <= 13 && AllDigits(t[7..]))) then
      DigitsOfPrefix(t);
      Some(TimeMatch(t[0..2], t[2..4], t[4..6], if |t| == 6 then "" else t[7..]))
    else None
  }

  /** The check of vr.ts lines 54-60, by string comparison, leap-second clause included. */
  predicate IsValidTime(m: TimeMatch) {
    StringLessEq("00", m.hours) && StringLessEq(m.hours, "23")
    && StringLessEq("00", m.minutes) && StringLessEq(m.minutes, "59")
    && ((StringLessEq("00", m.seconds) && StringLessEq(m.seconds, "60"))
        || (m.seconds == "60" && m.hours == "23" && m.minutes == "59"))
    && |m.fraction| <= 6
  }

  /** `formatTime(value, precise)`: `HH:MM:SS`, with the fraction only when asked for and present. */
  function FormatTime(value: string, precise: bool): string {
    var tm := Js.Trim(value);
    match MatchTime(tm)
    case Some(m) =>
      if IsValidTime(m) then
        m.hours + ":" + m.minutes + ":" + m.seconds + (if precise && m.fraction != "" then "." + m.fraction else "")
      else value
    case None => value
  }

  /**
   * A valid DICOM TM value in the form the viewer accepts: six digits for hours 00-23,
   * minutes 00-59 and seconds 00-60, then optionally a point and one to six digits.
   */
  predicate ValidTmText(t: string) {
    |t| >= 6 && AllDigits(t[..6]) && (|t| == 6 || (t[6] == '.' && 8 <= |t| <= 13 && AllDigits(t[7..])))
    && TwoDigits(t[0..2]) <= 23 && TwoDigits(t[2..4]) <= 59 && TwoDigits(t[4..6]) <= 60
  }

  lemma DigitsOfPrefix(t: string)
    requires |t| >= 6 && AllDigits(t[..6])
    ensures AllDigits(t[0..2]) && AllDigits(t[2..4]) && AllDigits(t[4..6])
  {
    forall i | 0 <= i < 6 ensures IsDigit(t[i]) {
      assert t[..6][i] == t[i];
    }
  }

  /** The string-comparison check accepts exactly the numerically valid times; the leap-second clause adds nothing. */
  lemma ValidTimeNumeric(t: string)
    ensures MatchTime(t).Some? && IsValidTime(MatchTime(t).value) <==> ValidTmText(t)
  {
    if |t| >= 6 && AllDigits(t[..6]) {
      DigitsOfPrefix(t);
      StringOrderOfTwoDigits("00", t[0..2]);
      StringOrderOfTwoDigits(t[0..2], "23");
      StringOrderOfTwoDigits("00", t[2..4]);
      StringOrderOfTwoDigits(t[2..4], "59");
      StringOrderOfTwoDigits("00", t[4..6]);
      StringOrderOfTwoDigits(t[4..6], "60");
    }
  }

  /** The output for a valid time: `HH:MM:SS`, then the fraction when `precise` and present. */
  function TimeText(t: string, precise: bool): (o: string)
    requires ValidTmText(t)
    ensures |o| >= 8 && IsDigit(o[0]) && o[2] == ':' && o[5] == ':' && IsDigit(o[|o| - 1])
  {
    DigitsOfPrefix(t);
    var fraction := if precise && |t| > 6 then "." + t[7..] else "";
    assert fraction != "" ==> IsDigit(fraction[|fraction| - 1]);
    t[0..2] + ":" + t[2..4] + ":" + t[4..6] + fraction
  }

  /** `formatTime` rewrites a valid time and returns anything else exactly as given, whitespace included. */
  lemma FormatTimeCases(value: string, precise: bool)
    ensures ValidTmText(Js.Trim(value)) ==> FormatTime(value, precise) == TimeText(Js.Trim(value), precise)
    ensures !ValidTmText(Js.Trim(value)) ==> FormatTime(value, precise) == value
  {
    ValidTimeNumeric(Js.Trim(value));
  }

  /** Seconds `60` pass at any hour and minute, not only at 23:59. */
  lemma SecondsSixtyAnywhere()
    ensures FormatTime("000060", false) == "00:00:60"
  {
    var t := "000060";
    Js.TrimUnchanged(t);
    SixtyValid();
    FormatTimeCases(t, false);
    assert t[0..2] == "00" && t[2..4] == "00" && t[4..6] == "60";
  }

  lemma SixtyValid()
    ensures ValidTmText("000060")
  {
    var t := "000060";
    assert AllDigits(t[..6]);
    assert t[0..2] == "00" && t[2..4] == "00" && t[4..6] == "60";
  }

  /** Round trip: with `precise`, dropping the colons of a formatted valid time gives back the trimmed input. */
  lemma FormatTimePrecise(value: string)
    requires ValidTmText(Js.Trim(value))
    ensures Js.Remove(FormatTime(value, true), ':') == Js.Trim(value)
  {
    var t := Js.Trim(value);
    FormatTimeCases(value, true);
    var h, m, rest := t[0..2], t[2..4], t[4..];
    assert FormatTime(value, true) == h + (":" + (m + (":" + rest))) by {
      TimeTextParts(t);
    }
    NoColonInTime(t);
    Js.KeepThenDrop(h, ':', m + (":" + rest));
    Js.KeepThenDrop(m, ':', rest);
    Js.RemoveAbsent(rest, ':');
    assert t == h + (m + rest);
  }

  /** The precise text of a valid time is its three two-digit fields joined by colons, the fraction after the seconds. */
  lemma TimeTextParts(t: string)
    requires ValidTmText(t)
    ensures TimeText(t, true) == t[0..2] + (":" + (t[2..4] + (":" + t[4..])))
  {
    if |t| > 6 {
      assert t[4..] == t[4..6] + ("." + t[7..]);
    } else {
      assert t[4..] == t[4..6];
    }
  }

  /** A valid time holds no colon. */
  lemma NoColonInTime(t: string)
    requires ValidTmText(t)
    ensures forall i :: 0 <= i < |t| ==> t[i] != ':'
  {
    forall i | 0 <= i < |t| ensures t[i] != ':' {
      if i < 6 {
        assert t[..6][i] == t[i];
      } else if i > 6 {
        assert t[7..][i - 7] == t[i];
      }
    }
  }

  /** Text with a colon at position 2 that starts and ends with a digit never matches the pattern. */
  lemma ColonTextUnchanged(s: string, precise: bool)
    requires |s| >= 6 && IsDigit(s[0]) && s[2] == ':' && IsDigit(s[|s| - 1])
    ensures FormatTime(s, precise) == s
  {
    Js.TrimUnchanged(s);
    assert s[..6][2] == ':';
  }

  /** `formatTime` is idempotent: its output has colons, so the pattern never matches it again. */
  lemma FormatTimeIdempotent(value: string, precise: bool)
    ensures FormatTime(FormatTime(value, precise), precise) == FormatTime(value, precise)
  {
    FormatTimeCases(value, precise);
    if ValidTmText(Js.Trim(value)) {
      ColonTextUnchanged(TimeText(Js.Trim(value), precise), precise);
    }
  }

  // ---------------------------------------------------------------- formatDate

  /** Eight digits start at `i`. */
  predicate DateRunAt(s: string, i: nat) {
    i + 8 <= |s| && forall k :: i <= k < i + 8 ==> IsDigit(s[k])
  }

  /** The leftmost start of eight digits at or after `from`, as `(\d{4})(\d{2})(\d{2})` finds it. */
  function FirstDateRun(s: string, from: nat): (r: Option<nat>)
    ensures r.Some? ==> from <= r.value && DateRunAt(s, r.value)
    ensures forall i :: from <= i && (r.None? || i < r.value) ==> !DateRunAt(s, i)
    decreases |s| - from
  {
    if from + 8 > |s| then None
    else if DateRunAt(s, from) then Some(from)
    else FirstDateRun(s, from + 1)
  }

  /** `formatDate(value)`: the first eight-digit run `YYYYMMDD` becomes `YYYY/MM/DD`. */
  function FormatDate(value: string): string {
    match FirstDateRun(value, 0)
    case None => value
    case Some(i) => value[..i + 4] + "/" + value[i + 4..i + 6] + "/" + value[i + 6..]
  }

  /** Without an eight-digit run the date is returned as it is. */
  lemma FormatDateNoRun(value: string)
    requires forall i :: 0 <= i ==> !DateRunAt(value, i)
    ensures FormatDate(value) == value
  {
  }

  /**
   * Round trip: the result is the input with two slashes inserted, after the fourth and the
   * sixth digit of the first eight-digit run; deleting them gives the input back.
   */
  lemma FormatDateInsertsSlashes(value: string)
    requires FirstDateRun(value, 0).Some?
    ensures var i := FirstDateRun(value, 0).value; var r := FormatDate(value);
      |r| == |value| + 2 && r[i + 4] == '/' && r[i + 7] == '/'
      && r[..i + 4] + r[i + 5..i + 7] + r[i + 8..] == value
  {
    var i := FirstDateRun(value, 0).value;
    Js.InsertTwo(value[..i + 4], '/', value[i + 4..i + 6], '/', value[i + 6..]);
    assert value == value[..i + 4] + value[i + 4..i + 6] + value[i + 6..];
  }

  // ---------------------------------------------------------------- the other formatters

  /** What a formatter yields in JavaScript terms: a string, `undefined`, or a thrown TypeError. */
  datatype Shown = Shown(text: string) | Undefined | TypeError

  /** `formatPersonName(value)`: the `Alphabetic` property, `undefined` on anything without one. */
  function FormatPersonName(value: Value): (r: Shown)
    ensures r.Shown? <==> value.PersonName? && value.alphabetic.Some?
  {
    match value
    case PersonName(Some(a)) => Shown(a)
    case _ => Undefined
  }

  /** `formatPatientSex(value)`: M, F and O spelt out, anything else as given. */
  function FormatPatientSex(value: string): (r: string)
    ensures value == "M" ==> r == "Male"
    ensures value == "F" ==> r == "Female"
    ensures value == "O" ==> r == "Other"
    ensures value !in {"M", "F", "O"} ==> r == value
  {
    if value == "M" then "Male" else if value == "F" then "Female" else if value == "O" then "Other" else value
  }

  /** The code a spelt-out sex came from. */
  function SexCode(text: string): string {
    if text == "Male" then "M" else if text == "Female" then "F" else if text == "Other" then "O" else text
  }

  /** Round trip: a code spelt out reads back as that code. */
  lemma SexCodeOfFormat(value: string)
    requires value !in {"Male", "Female", "Other"}
    ensures SexCode(FormatPatientSex(value)) == value
  {
  }

  /** `value.toString()`: a string itself, a number's JavaScript text, `[object Object]` for objects. */
  function ToString(value: Value): string {
    match value
    case Str(s) => s
    case Num(_, text) => text
    case _ => "[object Object]"
  }

  /** `formatValue(vr, value)`: '' for a falsy value, else dispatch on PN, DA and TM. */
  function FormatValue(vr: string, value: Value): Shown {
    if !Truthy(value) then Shown("")
    else if vr == "PN" then FormatPersonName(value)
    else if vr == "DA" then (if value.Str? then Shown(FormatDate(value.s)) else TypeError)
    else if vr == "TM" then (if value.Str? then Shown(FormatTime(value.s, false)) else TypeError)
    else Shown(ToString(value))
  }

  /**
   * `formatValue` throws exactly for a truthy non-string DA or TM value, and yields
   * `undefined` exactly for a truthy PN value without an alphabetic name.
   */
  lemma FormatValueOutcomes(vr: string, value: Value)
    ensures FormatValue(vr, value).TypeError? <==> Truthy(value) && (vr == "DA" || vr == "TM") && !value.Str?
    ensures FormatValue(vr, value).Undefined? <==>
      Truthy(value) && vr == "PN" && !(value.PersonName? && value.alphabetic.Some?)
    ensures !Truthy(value) ==> FormatValue(vr, value) == Shown("")
  {
  }
}

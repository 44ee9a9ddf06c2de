/**
 * `atob`, the browser's base64 decoder (the forgiving-base64 decode of the WHATWG Infra
 * standard over the alphabet of section 4 of RFC 4648), and the RFC 4648 encoder it inverts.
 * A decoded "binary string" is modelled by the byte values of its characters.
 */
module Base64 {
  import opened Wrappers
  import Js

  type Byte = Js.Byte

  /** A six-bit group: the value of one base64 character. */
  type Sextet = x: int | 0 <= x < 64

  /** `atob` throws `InvalidCharacterError` on malformed input. */
  datatype Error = InvalidCharacterError

  /** The base64 character for a sextet (table 1 of RFC 4648). */
  function CharOf(v: Sextet): (c: char)
  {
    if v < 26 then ('A' as int + v) as char
    else if v < 52 then ('a' as int + v - 26) as char
    else if v < 62 then ('0' as int + v - 52) as char
    else if v == 62 then '+'
    else '/'
  }

  /** The sextet a base64 character stands for, or `None` for any other character. */
  function SextetOf(c: char): (r: Option<Sextet>)
  {
    if 'A' <= c <= 'Z' then Some(c as int - 'A' as int)
    else if 'a' <= c <= 'z' then Some(c as int - 'a' as int + 26)
    else if '0' <= c <= '9' then Some(c as int - '0' as int + 52)
    else if c == '+' then Some(62)
    else if c == '/' then Some(63)
    else None
  }

  /** Every sextet's character decodes back to it. */
  lemma SextetOfCharOf(v: Sextet)
    ensures SextetOf(CharOf(v)) == Some(v)
  {
  }

  /** Every character that decodes comes from its sextet's character. */
  lemma CharOfSextetOf(c: char)
    requires SextetOf(c).Some?
    ensures CharOf(SextetOf(c).value) == c
  {
  }

  /** ASCII whitespace as the Infra standard defines it: TAB, LF, FF, CR and SPACE. */
  predicate IsAsciiWhitespace(c: char) {
    c == '\t' || c == '\n' || c == '\U{000C}' || c == '\r' || c == ' '
  }

  function RemoveWhitespace(s: string): (r: string)
    ensures |r| <= |s|
    ensures forall i :: 0 <= i < |r| ==> !IsAsciiWhitespace(r[i])
  {
    if s == [] then []
    else if IsAsciiWhitespace(s[0]) then RemoveWhitespace(s[1..])
    else [s[0]] + RemoveWhitespace(s[1..])
  }

  /** When the length is a multiple of four, one or two trailing `=` are dropped. */
  function RemovePadding(s: string): (r: string)
    ensures |s| - 2 <= |r| <= |s| && r == s[..|r|]
  {
    if |s| % 4 != 0 then s
    else if |s| >= 2 && s[|s| - 2] == '=' && s[|s| - 1] == '=' then s[..|s| - 2]
    else if |s| >= 1 && s[|s| - 1] == '=' then s[..|s| - 1]
    else s
  }

  /** The sextets of a string, or `None` when some character is outside the alphabet. */
  function Sextets(s: string): (r: Option<seq<Sextet>>)
    ensures r.Some? ==> |r.value| == |s|
    ensures r.Some? <==> forall i :: 0 <= i < |s| ==> SextetOf(s[i]).Some?
  {
    if s == [] then Some([])
    else match (SextetOf(s[0]), Sextets(s[1..]))
      case (Some(v), Some(vs)) => Some([v] + vs)
      case _ => None
  }

  /** The bytes of two, three or four sextets: their bits, the last partial byte dropped. */
  function DecodeGroup(vs: seq<Sextet>): (r: seq<Byte>)
    requires 2 <= |vs| <= 4
    ensures |r| == |vs| - 1
  {
    var x: Byte := (vs[0] as int) * 4 + (vs[1] as int) / 16;
    if |vs| == 2 then [x]
    else
      var y: Byte := ((vs[1] as int) % 16) * 16 + (vs[2] as int) / 4;
      if |vs| == 3 then [x, y]
      else
        var z: Byte := ((vs[2] as int) % 4) * 64 + vs[3] as int;
        [x, y, z]
  }

  /**
   * The bytes of a run of sextets: each four give three bytes; a final two or three give
   * one or two bytes.
   */
  function DecodeSextets(vs: seq<Sextet>): (r: seq<Byte>)
    requires |vs| % 4 != 1
    decreases |vs|
  {
    if |vs| == 0 then []
    else if |vs| < 4 then DecodeGroup(vs)
    else DecodeGroup(vs[..4]) + DecodeSextets(vs[4..])
  }

  /** `atob(s)`: the decoded bytes, or `InvalidCharacterError`. */
  function Atob(s: string): (r: Result<seq<Byte>, Error>)
    ensures r.Failure? <==>
      var data := RemovePadding(RemoveWhitespace(s));
      |data| % 4 == 1 || exists i :: 0 <= i < |data| && SextetOf(data[i]).None?
  {
    var data := RemovePadding(RemoveWhitespace(s));
    if |data| % 4 == 1 then Failure(InvalidCharacterError)
    else match Sextets(data)
      case None => Failure(InvalidCharacterError)
      case Some(vs) => Success(DecodeSextets(vs))
  }

  // ---------------------------------------------------------------- the encoder it inverts

  /** The sextets of one, two or three bytes, the last one padded with zero bits. */
  function EncodeGroup(b: seq<Byte>): (vs: seq<Sextet>)
    requires 1 <= |b| <= 3
    ensures |vs| == |b| + 1
  {
    var a: Sextet := b[0] / 4;
    if |b| == 1 then [a, (b[0] % 4) * 16]
    else
      var c: Sextet := (b[0] % 4) * 16 + b[1] / 16;
      if |b| == 2 then [a, c, (b[1] % 16) * 4]
      else [a, c, (b[1] % 16) * 4 + b[2] / 64, b[2] % 64]
  }

  lemma DecodeEncodeGroup(b: seq<Byte>)
    requires 1 <= |b| <= 3
    ensures DecodeGroup(EncodeGroup(b)) == b
  {
  }

  /** The sextets of bytes: four per three bytes, two or three for a final one or two. */
  function EncodeSextets(b: seq<Byte>): (vs: seq<Sextet>)
    ensures |vs| % 4 == (if |b| % 3 == 0 then 0 else |b| % 3 + 1)
    decreases |b|
  {
    if |b| == 0 then []
    else if |b| < 3 then EncodeGroup(b)
    else
      var rest := EncodeSextets(b[3..]);
      assert |b[3..]| % 3 == |b| % 3 && (4 + |rest|) % 4 == |rest| % 4;
      EncodeGroup(b[..3]) + rest
  }

  function Chars(vs: seq<Sextet>): (s: string)
    ensures |s| == |vs| && forall i :: 0 <= i < |vs| ==> s[i] == CharOf(vs[i])
  {
    seq(|vs|, i requires 0 <= i < |vs| => CharOf(vs[i]))
  }

  /** The padded base64 encoding of section 4 of RFC 4648. */
  function Encode(b: seq<Byte>): (s: string)
    ensures |s| % 4 == 0
  {
    Chars(EncodeSextets(b)) + (if |b| % 3 == 1 then "==" else if |b| % 3 == 2 then "=" else "")
  }

  /** Decoding the sextets of bytes gives the bytes back. */
  lemma {:induction false} DecodeEncodeSextets(b: seq<Byte>)
    ensures DecodeSextets(EncodeSextets(b)) == b
    decreases |b|
  {
    if 0 < |b| < 3 {
      DecodeEncodeGroup(b);
    } else if |b| >= 3 {
      var g, rest := EncodeGroup(b[..3]), EncodeSextets(b[3..]);
      Js.AppendParts(g, rest);
      DecodeEncodeGroup(b[..3]);
      DecodeEncodeSextets(b[3..]);
      Js.AppendHeadTail([], b);
      assert b == b[..3] + b[3..];
    }
  }

  lemma SextetsOfChars(vs: seq<Sextet>)
    ensures Sextets(Chars(vs)) == Some(vs)
  {
    var s := Chars(vs);
    forall i | 0 <= i < |s| ensures SextetOf(s[i]).Some? {
      SextetOfCharOf(vs[i]);
    }
    var r := Sextets(s).value;
    forall i | 0 <= i < |s| ensures r[i] == vs[i] {
      SextetOfCharOf(vs[i]);
      SextetAt(s, i);
    }
    assert r == vs;
  }

  /** The `i`-th sextet of a string is the value of its `i`-th character. */
  lemma {:induction false} SextetAt(s: string, i: nat)
    requires i < |s| && Sextets(s).Some?
    ensures Some(Sextets(s).value[i]) == SextetOf(s[i])
  {
    if i > 0 {
      SextetAt(s[1..], i - 1);
    }
  }

  lemma NoWhitespace(s: string)
    requires forall i :: 0 <= i < |s| ==> !IsAsciiWhitespace(s[i])
    ensures RemoveWhitespace(s) == s
  {
  }

  /** An encoding holds no whitespace. */
  lemma EncodeNoWhitespace(b: seq<Byte>)
    ensures RemoveWhitespace(Encode(b)) == Encode(b)
  {
    var vs := EncodeSextets(b);
    var s := Encode(b);
    forall i | 0 <= i < |s| ensures !IsAsciiWhitespace(s[i]) {
      if i < |vs| {
        assert s[i] == CharOf(vs[i]);
      }
    }
    NoWhitespace(s);
  }

  /** Dropping the padding of an encoding leaves the characters of its sextets. */
  lemma EncodePadding(b: seq<Byte>)
    ensures RemovePadding(Encode(b)) == Chars(EncodeSextets(b))
  {
    var vs := EncodeSextets(b);
    var s := Encode(b);
    var body := Chars(vs);
    if |b| % 3 == 0 {
      assert s == body;
      if |body| > 0 {
        assert s[|s| - 1] == CharOf(vs[|vs| - 1]);
      }
    } else if |b| % 3 == 2 {
      assert s[|s| - 2] == CharOf(vs[|vs| - 1]);
      assert s[..|s| - 1] == body;
    } else {
      assert s[..|s| - 2] == body;
    }
  }

  /** Round trip: `atob` decodes the RFC 4648 encoding of any bytes to those bytes. */
  lemma AtobEncode(b: seq<Byte>)
    ensures Atob(Encode(b)) == Success(b)
  {
    EncodeNoWhitespace(b);
    EncodePadding(b);
    SextetsOfChars(EncodeSextets(b));
    DecodeEncodeSextets(b);
  }
}

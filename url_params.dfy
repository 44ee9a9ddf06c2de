/**
 * `URLSearchParams` as the viewer uses it: an ordered list of name-value pairs, `set`,
 * `get`, and `toString`, the application/x-www-form-urlencoded serializer of the WHATWG
 * URL standard (section 5.2), which percent-encodes the UTF-8 bytes (RFC 3629) of every
 * name and value.
 */
module UrlParams {
  import opened Wrappers
  import Js

  type Byte = Js.Byte
  type Entry = (string, string)

  // ---------------------------------------------------------------- the list and its operations

  predicate HasName(entries: seq<Entry>, name: string) {
    exists i :: 0 <= i < |entries| && entries[i].0 == name
  }

  /** `get(name)`: the value of the first pair with that name. */
  function Get(entries: seq<Entry>, name: string): (r: Option<string>)
    ensures r.Some? <==> HasName(entries, name)
    ensures r.Some? ==> exists i :: 0 <= i < |entries| && entries[i] == (name, r.value)
  {
    if entries == [] then None
    else if entries[0].0 == name then Some(entries[0].1)
    else
      var r := Get(entries[1..], name);
      assert forall i :: 0 < i < |entries| ==> entries[i] == entries[1..][i - 1];
      r
  }

  /** The pairs whose name is not `name`, in order. */
  function Without(entries: seq<Entry>, name: string): (r: seq<Entry>)
    ensures !HasName(r, name)
    ensures forall e :: e in r <==> e in entries && e.0 != name
  {
    if entries == [] then []
    else if entries[0].0 == name then Without(entries[1..], name)
    else [entries[0]] + Without(entries[1..], name)
  }

  /** The first pair named `name` takes the new value; the later ones go. */
  function Replace(entries: seq<Entry>, name: string, value: string): (r: seq<Entry>)
  {
    if entries == [] then []
    else if entries[0].0 == name then [(name, value)] + Without(entries[1..], name)
    else [entries[0]] + Replace(entries[1..], name, value)
  }

  /** `set(name, value)`: replace the first pair of that name and drop the others, or append. */
  function SetEntry(entries: seq<Entry>, name: string, value: string): seq<Entry> {
    if HasName(entries, name) then Replace(entries, name, value) else entries + [(name, value)]
  }

  lemma {:induction false} GetReplace(entries: seq<Entry>, name: string, value: string, other: string)
    requires HasName(entries, name)
    ensures Get(Replace(entries, name, value), name) == Some(value)
    ensures other != name ==> Get(Replace(entries, name, value), other) == Get(entries, other)
  {
    if entries[0].0 == name {
      if other != name {
        GetWithout(entries[1..], name, other);
      }
    } else {
      assert HasName(entries[1..], name) by {
        var i :| 0 <= i < |entries| && entries[i].0 == name;
        assert entries[1..][i - 1] == entries[i];
      }
      GetReplace(entries[1..], name, value, other);
    }
  }

  lemma {:induction false} GetWithout(entries: seq<Entry>, name: string, other: string)
    requires other != name
    ensures Get(Without(entries, name), other) == Get(entries, other)
  {
    if entries != [] {
      GetWithout(entries[1..], name, other);
    }
  }

  lemma {:induction false} GetAppend(entries: seq<Entry>, e: Entry, other: string)
    ensures Get(entries + [e], other) == if HasName(entries, other) then Get(entries, other) else if e.0 == other then Some(e.1) else None
  {
    if entries != [] {
      assert (entries + [e])[1..] == entries[1..] + [e];
      GetAppend(entries[1..], e, other);
      if !HasName(entries, other) {
        assert !HasName(entries[1..], other) by {
          forall i | 0 <= i < |entries[1..]| ensures entries[1..][i].0 != other {
            assert entries[1..][i] == entries[i + 1];
          }
        }
      } else if entries[0].0 != other {
        var i :| 0 <= i < |entries| && entries[i].0 == other;
        assert entries[1..][i - 1] == entries[i];
      }
    }
  }

  /** After `set(name, value)`, `get(name)` is `value` and every other name reads as before. */
  lemma GetAfterSet(entries: seq<Entry>, name: string, value: string, other: string)
    ensures Get(SetEntry(entries, name, value), name) == Some(value)
    ensures other != name ==> Get(SetEntry(entries, name, value), other) == Get(entries, other)
  {
    if HasName(entries, name) {
      GetReplace(entries, name, value, other);
    } else {
      GetAppend(entries, (name, value), name);
      GetAppend(entries, (name, value), other);
    }
  }

  /** A name that is new is appended at the end, and the earlier pairs keep their order. */
  lemma SetNewName(entries: seq<Entry>, name: string, value: string)
    requires !HasName(entries, name)
    ensures SetEntry(entries, name, value) == entries + [(name, value)]
  {
  }

  /** The names present after `set` are the names before, plus `name`. */
  lemma {:induction false} NamesAfterSet(entries: seq<Entry>, name: string, value: string, other: string)
    ensures HasName(SetEntry(entries, name, value), other) <==> other == name || HasName(entries, other)
  {
    GetAfterSet(entries, name, value, other);
  }

  /** A name is in a list with a first pair exactly when it is that pair's name or in the rest. */
  lemma HasNameCons(entries: seq<Entry>, name: string)
    requires entries != []
    ensures HasName(entries, name) <==> entries[0].0 == name || HasName(entries[1..], name)
  {
    if HasName(entries, name) && entries[0].0 != name {
      var i :| 0 <= i < |entries| && entries[i].0 == name;
      assert entries[1..][i - 1] == entries[i];
    }
    if HasName(entries[1..], name) {
      var i :| 0 <= i < |entries[1..]| && entries[1..][i].0 == name;
      assert entries[i + 1] == entries[1..][i];
    }
  }

  /** `get` on two lists one after the other: the first list answers when it has the name. */
  lemma {:induction false} GetConcat(a: seq<Entry>, b: seq<Entry>, name: string)
    ensures Get(a + b, name) == if HasName(a, name) then Get(a, name) else Get(b, name)
  {
    if a == [] {
      assert a + b == b;
    } else {
      assert (a + b)[0] == a[0] && (a + b)[1..] == a[1..] + b;
      HasNameCons(a, name);
      GetConcat(a[1..], b, name);
    }
  }

  /** When every pair named `name` carries the same value, `get(name)` reads it, and `null` when there is none. */
  lemma {:induction false} GetByMembers(entries: seq<Entry>, name: string, expected: Option<string>)
    requires forall value :: (name, value) in entries <==> expected == Some(value)
    ensures Get(entries, name) == expected
  {
    if entries == [] {
      assert (name, expected.GetOr("")) !in entries;
    } else if entries[0].0 != name {
      forall value ensures (name, value) in entries[1..] <==> expected == Some(value) {
        if (name, value) in entries {
          var i :| 0 <= i < |entries| && entries[i] == (name, value);
          assert entries[1..][i - 1] == entries[i];
        }
      }
      GetByMembers(entries[1..], name, expected);
    } else {
      assert (name, entries[0].1) in entries;
    }
  }

  /** The pairs of `if (present) params.set(key, value)` on a list without `key`. */
  function When(present: bool, key: string, value: string): (r: seq<Entry>)
    ensures |r| <= 1
  {
    if present then [(key, value)] else []
  }

  /** `get` after appending a conditional pair: the new pair answers only for a name not there before. */
  lemma GetWhen(entries: seq<Entry>, present: bool, key: string, value: string, name: string)
    ensures Get(entries + When(present, key, value), name)
         == if present && name == key && !HasName(entries, name) then Some(value) else Get(entries, name)
    ensures HasName(entries + When(present, key, value), name) <==> HasName(entries, name) || (present && name == key)
  {
    GetConcat(entries, When(present, key, value), name);
    if !present {
      assert entries + [] == entries;
    }
  }

  /** A conditional pair that is absent or has another name does not change what `get` reads. */
  lemma GetSkip(entries: seq<Entry>, present: bool, key: string, value: string, name: string)
    requires !present || name != key
    ensures Get(entries + When(present, key, value), name) == Get(entries, name)
  {
    GetWhen(entries, present, key, value, name);
  }

  /** Every name in the list is one of `names`. */
  predicate NamesIn(entries: seq<Entry>, names: set<string>) {
    forall i :: 0 <= i < |entries| ==> entries[i].0 in names
  }

  /** `if (present) params.set(key, value)` on the list. */
  function SetIf(entries: seq<Entry>, present: bool, key: string, value: string): seq<Entry> {
    if present then SetEntry(entries, key, value) else entries
  }

  /** A conditional `set` of a name not yet present appends its pair, and the names grow by at most that name. */
  lemma SetWhen(entries: seq<Entry>, names: set<string>, present: bool, key: string, value: string)
    requires NamesIn(entries, names) && key !in names
    ensures SetIf(entries, present, key, value) == entries + When(present, key, value)
    ensures NamesIn(entries + When(present, key, value), names + {key})
  {
    if present {
      SetNewName(entries, key, value);
    } else {
      assert entries + [] == entries;
    }
  }

  // ---------------------------------------------------------------- UTF-8 and the serializer

  /** The UTF-8 encoding of one Unicode scalar value (section 3 of RFC 3629). */
  function Utf8(c: char): (b: seq<Byte>)
    ensures 1 <= |b| <= 4
    ensures |b| == 1 <==> (c as int) < 0x80
    ensures |b| == 1 ==> b[0] == c as int
    ensures |b| > 1 ==> 0xC0 <= b[0] && forall k :: 1 <= k < |b| ==> 0x80 <= b[k] < 0xC0
  {
    var n := c as int;
    if n < 0x80 then [n]
    else if n < 0x800 then [0xC0 + n / 64, 0x80 + n % 64]
    else if n < 0x1_0000 then [0xE0 + n / 4096, 0x80 + (n / 64) % 64, 0x80 + n % 64]
    else [0xF0 + n / 262144, 0x80 + (n / 4096) % 64, 0x80 + (n / 64) % 64, 0x80 + n % 64]
  }

  function Utf8String(s: string): (b: seq<Byte>)
    ensures |b| >= |s|
  {
    if s == [] then [] else Utf8(s[0]) + Utf8String(s[1..])
  }

  /** The bytes the urlencoded serializer leaves as they are: `*`, `-`, `.`, `_`, digits and ASCII letters. */
  predicate Unreserved(b: int) {
    b == 0x2A || b == 0x2D || b == 0x2E || b == 0x5F
    || (0x30 <= b <= 0x39) || (0x41 <= b <= 0x5A) || (0x61 <= b <= 0x7A)
  }

  function HexDigit(d: int): (c: char)
    requires 0 <= d < 16
  {
    if d < 10 then ('0' as int + d) as char else ('A' as int + d - 10) as char
  }

  /** One byte, serialized: itself, `+` for a space, or `%` and two upper-case hex digits. */
  function EncodeByte(b: Byte): (s: string)
    ensures Unreserved(b) ==> s == [b as char]
    ensures b == 0x20 ==> s == "+"
    ensures !Unreserved(b) && b != 0x20 ==> |s| == 3 && s[0] == '%'
  {
    if Unreserved(b) then [b as char]
    else if b == 0x20 then "+"
    else ['%', HexDigit(b / 16), HexDigit(b % 16)]
  }

  function EncodeBytes(bytes: seq<Byte>): string {
    if bytes == [] then [] else EncodeByte(bytes[0]) + EncodeBytes(bytes[1..])
  }

  /** The characters a serialized name or value can contain: never `&` nor `=`. */
  predicate Serialized(c: char) {
    Unreserved(c as int) || c == '+' || c == '%'
  }

  function HexValue(c: char): int {
    if '0' <= c <= '9' then c as int - '0' as int
    else if 'A' <= c <= 'F' then c as int - 'A' as int + 10
    else 0
  }

  /** The urlencoded parser's byte decoding: `+` is a space and `%XY` a byte. */
  function DecodeBytes(s: string): seq<int>
    decreases |s|
  {
    if s == [] then []
    else if s[0] == '+' then [0x20] + DecodeBytes(s[1..])
    else if s[0] == '%' && |s| >= 3 then [16 * HexValue(s[1]) + HexValue(s[2])] + DecodeBytes(s[3..])
    else [s[0] as int] + DecodeBytes(s[1..])
  }

  lemma {:induction false} EncodeBytesAppend(a: seq<Byte>, b: seq<Byte>)
    ensures EncodeBytes(a + b) == EncodeBytes(a) + EncodeBytes(b)
  {
    if a == [] {
      assert a + b == b;
    } else {
      assert (a + b)[0] == a[0] && (a + b)[1..] == a[1..] + b;
      EncodeBytesAppend(a[1..], b);
    }
  }

  /** Serialized text holds no `&` or `=`, so a query splits back into its pairs. */
  lemma {:induction false} EncodeBytesSafe(bytes: seq<Byte>)
    ensures forall i :: 0 <= i < |EncodeBytes(bytes)| ==> Serialized(EncodeBytes(bytes)[i])
  {
    if bytes != [] {
      var head, rest := EncodeByte(bytes[0]), EncodeBytes(bytes[1..]);
      EncodeBytesSafe(bytes[1..]);
      assert forall i :: 0 <= i < |head| ==> Serialized(head[i]);
      assert forall i :: 0 <= i < |rest| ==> (head + rest)[|head| + i] == rest[i];
    }
  }

  lemma EncodeDecodeByte(b: Byte, tail: string)
    ensures DecodeBytes(EncodeByte(b) + tail) == [b] + DecodeBytes(tail)
  {
    var s := EncodeByte(b) + tail;
    if Unreserved(b) {
      assert s[0] == b as char && s[1..] == tail;
    } else if b == 0x20 {
      assert s[0] == '+' && s[1..] == tail;
    } else {
      assert s[0] == '%' && s[1] == HexDigit(b / 16) && s[2] == HexDigit(b % 16) && s[3..] == tail;
    }
  }

  /** Round trip: the parser's byte decoding undoes the serializer's byte encoding. */
  lemma {:induction false} DecodeEncodeBytes(bytes: seq<Byte>)
    ensures DecodeBytes(EncodeBytes(bytes)) == bytes
  {
    if bytes != [] {
      EncodeDecodeByte(bytes[0], EncodeBytes(bytes[1..]));
      DecodeEncodeBytes(bytes[1..]);
    }
  }

  /** A name or value as it appears in a query. */
  function Encode(s: string): string {
    EncodeBytes(Utf8String(s))
  }

  /** Text made of unreserved ASCII characters, such as tags, UIDs and `SM`, is serialized as it is. */
  lemma {:induction false} EncodeUnreserved(s: string)
    requires forall i :: 0 <= i < |s| ==> Unreserved(s[i] as int)
    ensures Encode(s) == s
  {
    if s != [] {
      EncodeUnreserved(s[1..]);
      assert Utf8String(s) == [s[0] as int] + Utf8String(s[1..]);
      assert EncodeBytes(Utf8String(s)) == [s[0]] + EncodeBytes(Utf8String(s[1..]));
    }
  }

  /** One pair as it appears in a query: `name=value`. */
  function Piece(e: Entry): string {
    Encode(e.0) + "=" + Encode(e.1)
  }

  /** `toString()`: `name=value` pairs joined by `&`. */
  function Serialize(entries: seq<Entry>): string {
    if entries == [] then ""
    else if |entries| == 1 then Piece(entries[0])
    else Piece(entries[0]) + "&" + Serialize(entries[1..])
  }

  /** The pieces between the `&` of a serialization, one per pair. */
  function Pieces(entries: seq<Entry>): (r: seq<string>)
    ensures |r| == |entries|
  {
    seq(|entries|, i requires 0 <= i < |entries| => Piece(entries[i]))
  }

  lemma NoAmpersand(s: string)
    ensures forall j :: 0 <= j < |Encode(s)| ==> Encode(s)[j] != '&' && Encode(s)[j] != '='
  {
    EncodeBytesSafe(Utf8String(s));
  }

  lemma PieceHasNoAmpersand(e: Entry, j: nat)
    requires j < |Piece(e)|
    ensures Piece(e)[j] != '&'
  {
    NoAmpersand(e.0);
    NoAmpersand(e.1);
    var a := Encode(e.0);
    if j > |a| {
      assert (a + "=" + Encode(e.1))[j] == Encode(e.1)[j - |a| - 1];
    }
  }

  lemma PiecesCons(entries: seq<Entry>)
    requires |entries| > 0
    ensures Pieces(entries) == [Piece(entries[0])] + Pieces(entries[1..])
  {
  }

  /** A pair alone has no `&` to split at. */
  lemma SplitPiece(e: Entry)
    ensures Js.Split(Piece(e), "&") == [Piece(e)]
  {
    var piece := Piece(e);
    forall j | 0 <= j <= |piece| ensures !Js.OccursAt(piece, "&", j) {
      if j < |piece| {
        PieceHasNoAmpersand(e, j);
      }
    }
    Js.SplitNoSeparator(piece, "&");
  }

  /** The first `&` after a pair is the one that follows it. */
  lemma SplitAfterPiece(e: Entry, rest: string)
    ensures Js.Split(Piece(e) + "&" + rest, "&") == [Piece(e)] + Js.Split(rest, "&")
  {
    var piece := Piece(e);
    forall j | 0 <= j < |piece| ensures !Js.OccursAt(piece + "&" + rest, "&", j) {
      PieceHasNoAmpersand(e, j);
      assert (piece + "&" + rest)[j] == piece[j];
    }
    Js.SplitFirst(piece, "&", rest);
  }

  /** Splitting a serialization at `&` gives the pairs back, each as `name=value`. */
  lemma {:induction false} SplitSerialized(entries: seq<Entry>)
    requires |entries| > 0
    ensures Js.Split(Serialize(entries), "&") == Pieces(entries)
  {
    PiecesCons(entries);
    if |entries| == 1 {
      SplitPiece(entries[0]);
      assert Pieces(entries[1..]) == [];
    } else {
      SplitAfterPiece(entries[0], Serialize(entries[1..]));
      SplitSerialized(entries[1..]);
    }
  }

  // ---------------------------------------------------------------- the object

  /** A `URLSearchParams` object: the list its methods update in place. */
  class SearchParams {
    var entries: seq<Entry>

    /** `new URLSearchParams(init)` from a record or from another `URLSearchParams`: the pairs in order. */
    constructor (init: seq<Entry>)
      ensures entries == init
    {
      entries := init;
    }

    method Set(name: string, value: string)
      modifies this
      ensures entries == SetEntry(old(entries), name, value)
    {
      entries := SetEntry(entries, name, value);
    }

    function ToString(): (s: string)
      reads this
      ensures entries != [] ==> Js.Split(s, "&") == Pieces(entries)
    {
      if entries == [] then ""
      else
        SplitSerialized(entries);
        Serialize(entries)
    }
  }

  /** `if (present) params.set(key, value)`. */
  method SetIfPresent(params: SearchParams, present: bool, key: string, value: string)
    modifies params
    ensures params.entries == SetIf(old(params.entries), present, key, value)
  {
    if present {
      params.Set(key, value);
    }
  }
}

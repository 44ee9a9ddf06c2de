/**
 * The few ECMAScript library operations the viewer relies on, stated as functions:
 * `Array.prototype.slice`, `String.prototype.indexOf` / `split`, `Array.prototype.flat`
 * and `String.prototype.trim`, and the object a loop builds by assigning keys in turn.
 */
module Js {
  import opened Wrappers

  /** An element of a `Uint8Array`. */
  type Byte = x: int | 0 <= x < 0x100

  /** Resolves a relative index of `slice` against a length: negative counts from the end. */
  function RelativeIndex(i: int, len: nat): (r: nat)
    ensures r <= len
    ensures 0 <= i <= len ==> r == i
  {
    if i < 0 then (if len + i < 0 then 0 else len + i)
    else if i > len then len
    else i
  }

  /** `s.slice(start, end)`: indices are clamped, and an empty range gives an empty result. */
  function Slice<T>(s: seq<T>, start: int, end: int): (r: seq<T>)
    ensures |r| <= |s|
  {
    var a, b := RelativeIndex(start, |s|), RelativeIndex(end, |s|);
    if a < b then s[a..b] else []
  }

  /** Within bounds, `slice` is the plain subsequence. */
  lemma SliceWithin<T>(s: seq<T>, start: int, end: int)
    requires 0 <= start <= end <= |s|
    ensures Slice(s, start, end) == s[start..end]
  {
  }

  /** `t` occurs in `s` at `i` as far as its elements from the `j`-th on are concerned. */
  predicate MatchesFrom<T(==)>(s: seq<T>, t: seq<T>, i: nat, j: nat)
    decreases |t| - j
  {
    j >= |t| || (i + j < |s| && s[i + j] == t[j] && MatchesFrom(s, t, i, j + 1))
  }

  /** True when `t` occurs in `s` at position `i`, compared element by element. */
  predicate OccursAt<T(==)>(s: seq<T>, t: seq<T>, i: nat) {
    i + |t| <= |s| && MatchesFrom(s, t, i, 0)
  }

  lemma {:induction false} MatchesFromElements<T>(s: seq<T>, t: seq<T>, i: nat, j: nat)
    requires i + |t| <= |s|
    ensures MatchesFrom(s, t, i, j) <==> forall k :: j <= k < |t| ==> s[i + k] == t[k]
    decreases |t| - j
  {
    if j < |t| {
      MatchesFromElements(s, t, i, j + 1);
    }
  }

  /** An occurrence is a run of equal elements. */
  lemma OccursAtElements<T>(s: seq<T>, t: seq<T>, i: nat)
    ensures OccursAt(s, t, i) <==> i + |t| <= |s| && forall k :: 0 <= k < |t| ==> s[i + k] == t[k]
  {
    if i + |t| <= |s| {
      MatchesFromElements(s, t, i, 0);
    }
  }

  /** An occurrence is an equal slice. */
  lemma OccursAtSlice<T>(s: seq<T>, t: seq<T>, i: nat)
    ensures OccursAt(s, t, i) <==> i + |t| <= |s| && s[i..i + |t|] == t
  {
    OccursAtElements(s, t, i);
    if i + |t| <= |s| {
      var w := s[i..i + |t|];
      forall k | 0 <= k < |t| ensures w[k] == s[i + k] { }
      assert (forall k :: 0 <= k < |t| ==> s[i + k] == t[k]) <==> w == t;
    }
  }

  /** Dropping the first element shifts every later occurrence down by one. */
  lemma OccursAtTail<T>(s: seq<T>, t: seq<T>)
    requires |s| > 0
    ensures forall j :: 1 <= j <= |s| ==> (OccursAt(s, t, j) <==> OccursAt(s[1..], t, j - 1))
  {
    forall j | 1 <= j <= |s| ensures OccursAt(s, t, j) <==> OccursAt(s[1..], t, j - 1) {
      OccursAtElements(s, t, j);
      OccursAtElements(s[1..], t, j - 1);
      if j + |t| <= |s| {
        forall k | 0 <= k < |t| ensures (s[1..][j - 1 + k] == t[k]) <==> (s[j + k] == t[k]) { }
      }
    }
  }

  /** `s.indexOf(t)`: the first position where `t` occurs, or -1. */
  function IndexOf<T(==)>(s: seq<T>, t: seq<T>): (k: int)
    ensures -1 <= k <= |s|
    ensures k >= 0 ==> OccursAt(s, t, k) && forall j :: 0 <= j < k ==> !OccursAt(s, t, j)
    ensures k < 0 ==> forall j :: 0 <= j <= |s| ==> !OccursAt(s, t, j)
    decreases |s|
  {
    if |s| < |t| then -1
    else if OccursAt(s, t, 0) then 0
    else
      var r := IndexOf(s[1..], t);
      OccursAtTail(s, t);
      if r < 0 then -1 else r + 1
  }

  /** `s.split(sep)` for a non-empty separator: the pieces between successive occurrences. */
  function Split<T(==)>(s: seq<T>, sep: seq<T>): (parts: seq<seq<T>>)
    requires |sep| > 0
    ensures |parts| >= 1
    decreases |s|
  {
    var i := IndexOf(s, sep);
    if i < 0 then [s] else [s[..i]] + Split(s[i + |sep|..], sep)
  }

  /** A string in which `sep` does not occur is split into itself. */
  lemma SplitNoSeparator<T>(s: seq<T>, sep: seq<T>)
    requires |sep| > 0
    requires forall j :: 0 <= j <= |s| ==> !OccursAt(s, sep, j)
    ensures Split(s, sep) == [s]
  {
  }

  /** Splitting `x + sep + y`, where `sep` does not start anywhere inside `x`, yields `x` first. */
  lemma SplitFirst<T>(x: seq<T>, sep: seq<T>, y: seq<T>)
    requires |sep| > 0
    requires forall j :: 0 <= j < |x| ==> !OccursAt(x + sep + y, sep, j)
    ensures Split(x + sep + y, sep) == [x] + Split(y, sep)
  {
    var s := x + sep + y;
    assert s[|x|..|x| + |sep|] == sep;
    OccursAtSlice(s, sep, |x|);
    var i := IndexOf(s, sep);
    assert i == |x|;
    assert s[..i] == x;
    assert s[i + |sep|..] == y;
  }

  /** Appending the head and then the tail of a non-empty sequence appends the sequence. */
  lemma AppendHeadTail<T>(prefix: seq<T>, s: seq<T>)
    requires |s| > 0
    ensures prefix + [s[0]] + s[1..] == prefix + s
  {
    assert [s[0]] + s[1..] == s;
  }

  /** Concatenation is associative. */
  lemma EmptyAppend<T>(s: seq<T>)
    ensures [] + s == s
  {
  }

  lemma AppendEmpty<T>(s: seq<T>)
    ensures s + [] == s
  {
  }

  lemma Concat3<T>(a: seq<T>, b: seq<T>, c: seq<T>)
    ensures a + b + c == a + (b + c)
  {
  }

  /** The two pieces of a concatenation. */
  lemma AppendParts<T>(x: seq<T>, y: seq<T>)
    ensures (x + y)[..|x|] == x && (x + y)[|x|..] == y
  {
  }

  /** `a.flat()` for an array of arrays. */
  function Flatten<T>(ss: seq<seq<T>>): (r: seq<T>)
  {
    if ss == [] then [] else ss[0] + Flatten(ss[1..])
  }

  lemma FlattenAppend<T>(ss: seq<seq<T>>, s: seq<T>)
    ensures Flatten(ss + [s]) == Flatten(ss) + s
  {
    if ss != [] {
      assert (ss + [s])[1..] == ss[1..] + [s];
      FlattenAppend(ss[1..], s);
    }
  }

  /** The elements in reverse order: what `Array.prototype.reverse` leaves in the array. */
  function Reversed<T>(s: seq<T>): (r: seq<T>)
    ensures |r| == |s| && forall i :: 0 <= i < |s| ==> r[i] == s[|s| - 1 - i]
  {
    if s == [] then [] else Reversed(s[1..]) + [s[0]]
  }

  lemma ReversedReversed<T>(s: seq<T>)
    ensures Reversed(Reversed(s)) == s
  {
  }

  /** `[...new Set(s)]`: the elements in the order of their first occurrence, each once. */
  function Unique<T(==,!new)>(s: seq<T>): (r: seq<T>)
    ensures forall x :: x in r <==> x in s
    ensures forall i, j :: 0 <= i < j < |r| ==> r[i] != r[j]
  {
    UniqueAfter(s, {})
  }

  /** The elements of `s` not in `seen`, first occurrences only, in order. */
  function UniqueAfter<T(==,!new)>(s: seq<T>, seen: set<T>): (r: seq<T>)
    ensures forall x :: x in r <==> x in s && x !in seen
    ensures forall i, j :: 0 <= i < j < |r| ==> r[i] != r[j]
  {
    if s == [] then []
    else if s[0] in seen then UniqueAfter(s[1..], seen)
    else [s[0]] + UniqueAfter(s[1..], seen + {s[0]})
  }

  /** A list without repeats comes out of the set unchanged, so the spread is idempotent. */
  lemma {:induction false} UniqueAfterDistinct<T(!new)>(s: seq<T>, seen: set<T>)
    requires forall i, j :: 0 <= i < j < |s| ==> s[i] != s[j]
    requires forall x :: x in s ==> x !in seen
    ensures UniqueAfter(s, seen) == s
  {
    if s != [] {
      forall x | x in s[1..] ensures x !in seen + {s[0]} {
        var k :| 0 <= k < |s[1..]| && s[1..][k] == x;
        assert s[k + 1] == x;
      }
      UniqueAfterDistinct(s[1..], seen + {s[0]});
    }
  }

  lemma UniqueIdempotent<T(!new)>(s: seq<T>)
    ensures Unique(Unique(s)) == Unique(s)
  {
    UniqueAfterDistinct(Unique(s), {});
  }

  /**
   * The characters `String.prototype.trim` removes: ECMAScript WhiteSpace and
   * LineTerminator (section 12.2 and 12.3 of ECMA-262).
   */
  predicate IsWhiteSpace(c: char) {
    c == '\t' || c == '\n' || c == '\U{000B}' || c == '\U{000C}' || c == '\r' || c == ' '
    || c == '\U{00A0}' || c == '\U{1680}' || ('\U{2000}' <= c <= '\U{200A}')
    || c == '\U{2028}' || c == '\U{2029}' || c == '\U{202F}' || c == '\U{205F}'
    || c == '\U{3000}' || c == '\U{FEFF}'
  }

  function TrimStart(s: string): (r: string)
    ensures |r| <= |s| && r == s[|s| - |r|..]
    ensures r == [] || !IsWhiteSpace(r[0])
    ensures forall i :: 0 <= i < |s| - |r| ==> IsWhiteSpace(s[i])
  {
    if s != [] && IsWhiteSpace(s[0]) then TrimStart(s[1..]) else s
  }

  function TrimEnd(s: string): (r: string)
    ensures |r| <= |s| && r == s[..|r|]
    ensures r == [] || !IsWhiteSpace(r[|r| - 1])
    ensures forall i :: |r| <= i < |s| ==> IsWhiteSpace(s[i])
  {
    if s != [] && IsWhiteSpace(s[|s| - 1]) then TrimEnd(s[..|s| - 1]) else s
  }

  /** `s.trim()`. */
  function Trim(s: string): (r: string)
    ensures r == [] || (!IsWhiteSpace(r[0]) && !IsWhiteSpace(r[|r| - 1]))
  {
    TrimEnd(TrimStart(s))
  }

  /** Two single elements inserted between three pieces, and where to find everything again. */
  lemma InsertTwo<T>(p: seq<T>, x: T, q: seq<T>, y: T, s: seq<T>)
    ensures var r := p + [x] + q + [y] + s;
      |r| == |p| + |q| + |s| + 2 && r[|p|] == x && r[|p| + 1 + |q|] == y
      && r[..|p|] + r[|p| + 1..|p| + 1 + |q|] + r[|p| + 2 + |q|..] == p + q + s
  {
    var r := p + [x] + q + [y] + s;
    assert r[..|p|] == p;
    assert r[|p| + 1..|p| + 1 + |q|] == q;
    assert r[|p| + 2 + |q|..] == s;
  }

  /** Text that neither starts nor ends with white space is its own trim. */
  lemma TrimUnchanged(s: string)
    requires s == [] || (!IsWhiteSpace(s[0]) && !IsWhiteSpace(s[|s| - 1]))
    ensures Trim(s) == s
  {
    assert TrimStart(s) == s;
  }

  /** `s.replace(/c/g, '')`: every occurrence of the character removed, the rest kept in order. */
  function Remove(s: string, c: char): (r: string)
    ensures |r| <= |s|
    ensures forall i :: 0 <= i < |r| ==> r[i] != c
  {
    if s == [] then [] else (if s[0] == c then [] else [s[0]]) + Remove(s[1..], c)
  }

  lemma {:induction false} RemoveAppend(a: string, b: string, c: char)
    ensures Remove(a + b, c) == Remove(a, c) + Remove(b, c)
  {
    if a != [] {
      var head := if a[0] == c then [] else [a[0]];
      assert (a + b)[0] == a[0] && (a + b)[1..] == a[1..] + b;
      assert Remove(a + b, c) == head + Remove(a[1..] + b, c);
      RemoveAppend(a[1..], b, c);
      assert Remove(a, c) == head + Remove(a[1..], c);
    } else {
      assert a + b == b;
    }
  }

  /** Text without the character is left as it is. */
  lemma {:induction false} RemoveAbsent(s: string, c: char)
    requires forall i :: 0 <= i < |s| ==> s[i] != c
    ensures Remove(s, c) == s
  {
    if s != [] {
      RemoveAbsent(s[1..], c);
    }
  }

  /** Text without the character, then the character, then anything: only that occurrence goes. */
  lemma KeepThenDrop(h: string, c: char, x: string)
    requires forall i :: 0 <= i < |h| ==> h[i] != c
    ensures Remove(h + ([c] + x), c) == h + Remove(x, c)
  {
    var cx := [c] + x;
    assert cx[0] == c && cx[1..] == x;
    assert Remove(cx, c) == Remove(x, c);
    RemoveAppend(h, cx, c);
    RemoveAbsent(h, c);
  }

  /** The object `o` after `for (const x of items.slice(0, n)) o[key(x)] = value(x)`. */
  function Assigned<T, V>(items: seq<T>, key: T -> string, value: T -> V, n: nat): map<string, V>
    requires n <= |items|
  {
    if n == 0 then map[] else Assigned(items, key, value, n - 1)[key(items[n - 1]) := value(items[n - 1])]
  }

  /** The keys of the object are exactly the keys of the items. */
  lemma {:induction false} AssignedKeys<T, V>(items: seq<T>, key: T -> string, value: T -> V, n: nat)
    requires n <= |items|
    ensures forall k :: k in Assigned(items, key, value, n) <==> exists i :: 0 <= i < n && key(items[i]) == k
  {
    if n > 0 {
      AssignedKeys(items, key, value, n - 1);
    }
  }

  /** Each key holds the value of the last item with that key. */
  lemma {:induction false} AssignedLast<T, V>(items: seq<T>, key: T -> string, value: T -> V, n: nat, k: string)
    requires n <= |items|
    requires k in Assigned(items, key, value, n)
    ensures exists i :: (0 <= i < n && key(items[i]) == k && Assigned(items, key, value, n)[k] == value(items[i])
      && forall j :: i < j < n ==> key(items[j]) != k)
  {
    if key(items[n - 1]) != k {
      AssignedLast(items, key, value, n - 1, k);
    } else {
      assert key(items[n - 1]) == k && Assigned(items, key, value, n)[k] == value(items[n - 1]);
    }
  }

  /** A property of the value of every item holds of every value of the object. */
  lemma {:induction false} AssignedAll<T, V>(items: seq<T>, key: T -> string, value: T -> V, n: nat, p: V -> bool)
    requires n <= |items|
    requires forall i :: 0 <= i < n ==> p(value(items[i]))
    ensures forall k :: k in Assigned(items, key, value, n) ==> p(Assigned(items, key, value, n)[k])
  {
    if n > 0 {
      AssignedAll(items, key, value, n - 1, p);
    }
  }

  /**
   * The same loop when computing a value may throw (`None`): the object after `n` items, or
   * `None` once one of them has thrown.
   */
  function AssignedUnlessThrown<T, V>(items: seq<T>, key: T -> string, value: T -> Option<V>, n: nat): Option<map<string, V>>
    requires n <= |items|
  {
    if n == 0 then Some(map[])
    else match AssignedUnlessThrown(items, key, value, n - 1)
      case None => None
      case Some(m) =>
        if value(items[n - 1]).None? then None
        else Some(m[key(items[n - 1]) := value(items[n - 1]).value])
  }

  /** The loop throws exactly when one of the items throws. */
  lemma {:induction false} AssignedUnlessThrownThrows<T, V>(items: seq<T>, key: T -> string, value: T -> Option<V>, n: nat)
    requires n <= |items|
    ensures AssignedUnlessThrown(items, key, value, n).None? <==> exists i :: 0 <= i < n && value(items[i]).None?
  {
    if n > 0 {
      AssignedUnlessThrownThrows(items, key, value, n - 1);
      if value(items[n - 1]).None? {
        assert exists i :: 0 <= i < n && value(items[i]).None?;
      }
    }
  }

  /** When the loop does not throw, the keys of the object are exactly the keys of the items. */
  lemma {:induction false} AssignedUnlessThrownKeys<T, V>(items: seq<T>, key: T -> string, value: T -> Option<V>, n: nat)
    requires n <= |items|
    ensures AssignedUnlessThrown(items, key, value, n).Some? ==>
      forall k :: k in AssignedUnlessThrown(items, key, value, n).value <==> exists i :: 0 <= i < n && key(items[i]) == k
  {
    if n > 0 {
      AssignedUnlessThrownKeys(items, key, value, n - 1);
    }
  }

  /** When the loop does not throw, each key holds the value of the last item with that key. */
  lemma {:induction false} AssignedUnlessThrownLast<T, V>(items: seq<T>, key: T -> string, value: T -> Option<V>, n: nat, k: string)
    requires n <= |items|
    requires AssignedUnlessThrown(items, key, value, n).Some? && k in AssignedUnlessThrown(items, key, value, n).value
    ensures exists i :: (0 <= i < n && key(items[i]) == k
      && value(items[i]) == Some(AssignedUnlessThrown(items, key, value, n).value[k])
      && forall j :: i < j < n ==> key(items[j]) != k)
  {
    if key(items[n - 1]) != k {
      AssignedUnlessThrownLast(items, key, value, n - 1, k);
    } else {
      assert key(items[n - 1]) == k && value(items[n - 1]) == Some(AssignedUnlessThrown(items, key, value, n).value[k]);
    }
  }

  /** When the loop does not throw, a property of every item's value holds of every value of the object. */
  lemma {:induction false} AssignedUnlessThrownAll<T, V>(items: seq<T>, key: T -> string, value: T -> Option<V>, n: nat, p: V -> bool)
    requires n <= |items|
    requires forall i :: 0 <= i < n && value(items[i]).Some? ==> p(value(items[i]).value)
    ensures var r := AssignedUnlessThrown(items, key, value, n);
      r.Some? ==> forall k :: k in r.value ==> p(r.value[k])
  {
    if n > 0 {
      AssignedUnlessThrownAll(items, key, value, n - 1, p);
    }
  }
}

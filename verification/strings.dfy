/** String helpers standing in for the JavaScript built-ins the source calls
    (`toLowerCase`, `trim`, `split`, `join`, `includes`, `indexOf`). Case
    mapping is restricted to ASCII. */
module Strings {

  /** The characters matched by `\s` and removed by `String.prototype.trim`
      (ECMAScript WhiteSpace and LineTerminator). */
  predicate IsSpace(c: char) {
    || c == ' ' || c == '\t' || c == '\n' || c == '\r' || c == '\U{000B}' || c == '\U{000C}'
    || c == '\U{00A0}' || c == '\U{1680}' || ('\U{2000}' <= c <= '\U{200A}')
    || c == '\U{2028}' || c == '\U{2029}' || c == '\U{202F}' || c == '\U{205F}'
    || c == '\U{3000}' || c == '\U{FEFF}'
  }

  predicate IsUpper(c: char) { 'A' <= c <= 'Z' }
  predicate IsLowerAlpha(c: char) { 'a' <= c <= 'z' }
  predicate IsDigit(c: char) { '0' <= c <= '9' }

  function LowerChar(c: char): (r: char)
    ensures !IsUpper(r)
    ensures IsUpper(c) ==> IsLowerAlpha(r)
    ensures !IsUpper(c) ==> r == c
  {
    if IsUpper(c) then (c as int + 32) as char else c
  }

  /** `toLowerCase`, ASCII letters only. */
  function Lower(s: string): (r: string)
    ensures |r| == |s|
    ensures forall i :: 0 <= i < |s| ==> r[i] == LowerChar(s[i])
  {
    if s == [] then [] else [LowerChar(s[0])] + Lower(s[1..])
  }

  lemma LowerConcat(a: string, b: string)
    ensures Lower(a + b) == Lower(a) + Lower(b)
  {
  }

  lemma LowerIdempotent(s: string)
    ensures Lower(Lower(s)) == Lower(s)
  {
  }

  /** Lower-casing leaves whitespace where it was and never creates any. */
  lemma LowerKeepsSpace(s: string)
    ensures forall i :: 0 <= i < |s| ==> (IsSpace(Lower(s)[i]) <==> IsSpace(s[i]))
  {
  }

  function TrimStart(s: string): (r: string)
    ensures |r| <= |s|
    ensures r == s[|s| - |r|..]
    ensures r != [] ==> !IsSpace(r[0])
    ensures forall i :: 0 <= i < |s| - |r| ==> IsSpace(s[i])
  {
    if s != [] && IsSpace(s[0]) then TrimStart(s[1..]) else s
  }

  function TrimEnd(s: string): (r: string)
    ensures |r| <= |s|
    ensures r == s[..|r|]
    ensures r != [] ==> !IsSpace(r[|r| - 1])
    ensures forall i :: |r| <= i < |s| ==> IsSpace(s[i])
  {
    if s != [] && IsSpace(s[|s| - 1]) then TrimEnd(s[..|s| - 1]) else s
  }

  /** `String.prototype.trim`. */
  function Trim(s: string): (r: string)
    ensures r != [] ==> !IsSpace(r[0]) && !IsSpace(r[|r| - 1])
    ensures |r| <= |s|
  {
    TrimEnd(TrimStart(s))
  }

  /** `String.prototype.length`: UTF-16 code units, so a character outside the
      Basic Multilingual Plane (a surrogate pair) counts twice. */
  function Utf16Len(s: string): (n: nat)
    ensures |s| <= n <= 2 * |s|
  {
    if s == [] then 0 else (if s[0] as int > 0xFFFF then 2 else 1) + Utf16Len(s[1..])
  }

  /** A string of Basic Multilingual Plane characters has one code unit per character. */
  lemma {:induction false} Utf16LenBmp(s: string)
    requires forall i :: 0 <= i < |s| ==> s[i] as int <= 0xFFFF
    ensures Utf16Len(s) == |s|
  {
    if s != [] {
      Utf16LenBmp(s[1..]);
    }
  }

  /** Code units add up over concatenation. */
  lemma {:induction false} Utf16LenConcat(a: string, b: string)
    ensures Utf16Len(a + b) == Utf16Len(a) + Utf16Len(b)
  {
    if a != [] {
      assert (a + b)[0] == a[0] && (a + b)[1..] == a[1..] + b;
      Utf16LenConcat(a[1..], b);
    } else {
      assert a + b == b;
    }
  }

  /** Trimming never lengthens a string, counted in code units. */
  lemma TrimUtf16Len(s: string)
    ensures Utf16Len(Trim(s)) <= Utf16Len(s)
  {
    var t := TrimStart(s);
    var r := Trim(s);
    assert s == s[..|s| - |t|] + t;
    Utf16LenConcat(s[..|s| - |t|], t);
    assert t == r + t[|r|..];
    Utf16LenConcat(r, t[|r|..]);
  }

  /** A string with a non-whitespace character does not trim to "". */
  lemma TrimNonEmpty(s: string, i: int)
    requires 0 <= i < |s| && !IsSpace(s[i])
    ensures Trim(s) != []
  {
    var t := TrimStart(s);
    assert |s| - |t| <= i;
    assert t[i - (|s| - |t|)] == s[i];
    assert |TrimEnd(t)| > i - (|s| - |t|);
  }

  predicate NoSpace(s: string) {
    forall i :: 0 <= i < |s| ==> !IsSpace(s[i])
  }

  lemma TrimOfTrimmed(s: string)
    requires s == [] || (!IsSpace(s[0]) && !IsSpace(s[|s| - 1]))
    ensures Trim(s) == s
  {
  }

  /** Trailing whitespace after a non-blank tail leaves a prefix untouched. */
  lemma TrimEndKeepsPrefix(p: string, q: string)
    requires exists i :: 0 <= i < |q| && !IsSpace(q[i])
    ensures TrimEnd(p + q) == p + TrimEnd(q)
    decreases |q|
  {
    var i :| 0 <= i < |q| && !IsSpace(q[i]);
    if IsSpace(q[|q| - 1]) {
      assert (p + q)[..|p + q| - 1] == p + q[..|q| - 1];
      assert q[..|q| - 1][i] == q[i];
      TrimEndKeepsPrefix(p, q[..|q| - 1]);
    }
  }

  lemma ConcatAssoc(a: string, b: string, c: string, d: string)
    ensures a + (b + (c + d)) == (a + b + c) + d
  {
  }

  predicate IsPrefix(p: string, s: string) {
    |p| <= |s| && s[..|p|] == p
  }

  /** Does `needle` occur in `s` starting at position i? */
  predicate OccursAt(s: string, needle: string, i: int) {
    0 <= i && i + |needle| <= |s| && s[i..i + |needle|] == needle
  }

  /** `String.prototype.includes` for a non-empty needle. */
  predicate Contains(s: string, needle: string) {
    exists i :: 0 <= i <= |s| && OccursAt(s, needle, i)
  }

  /** `String.prototype.indexOf`: the first occurrence at or after `from`, or None. */
  function IndexOfFrom(s: string, needle: string, from: nat): (r: int)
    ensures r == -1 || (from <= r && OccursAt(s, needle, r))
    ensures r == -1 ==> forall i :: from <= i ==> !OccursAt(s, needle, i)
    ensures r != -1 ==> forall i :: from <= i < r ==> !OccursAt(s, needle, i)
    decreases |s| - from
  {
    if from + |needle| > |s| then -1
    else if s[from..from + |needle|] == needle then from
    else IndexOfFrom(s, needle, from + 1)
  }

  function IndexOf(s: string, needle: string): (r: int)
    ensures r == -1 <==> !Contains(s, needle)
    ensures r != -1 ==> OccursAt(s, needle, r) && forall i :: 0 <= i < r ==> !OccursAt(s, needle, i)
  {
    IndexOfFrom(s, needle, 0)
  }

  lemma OccursInConcat(a: string, b: string, c: string)
    ensures OccursAt(a + b + c, b, |a|)
  {
    assert (a + b + c)[|a|..|a| + |b|] == b;
  }

  /** The same, for a right-nested concatenation. */
  lemma ContainsNested(a: string, b: string, c: string)
    ensures Contains(a + (b + c), b)
  {
    assert a + (b + c) == a + b + c;
    OccursInConcat(a, b, c);
  }

  lemma ContainsMiddle(a: string, b: string, c: string)
    ensures Contains(a + b + c, b)
  {
    OccursInConcat(a, b, c);
  }

  /** `chars.includes(c)` for a single character. */
  predicate HasChar(s: string, c: char) {
    exists i :: 0 <= i < |s| && s[i] == c
  }

  /** `s.split(sep)` for a one-character separator: the maximal separator-free pieces, in order. */
  function Split(s: string, sep: char): (parts: seq<string>)
    ensures |parts| >= 1
    ensures forall k :: 0 <= k < |parts| ==> !HasChar(parts[k], sep)
    ensures Join(parts, [sep]) == s
  {
    SplitFrom(s, sep, [])
  }

  /** Helper for Split: `cur` is the piece read so far. */
  function SplitFrom(s: string, sep: char, cur: string): (parts: seq<string>)
    requires !HasChar(cur, sep)
    ensures |parts| >= 1
    ensures forall k :: 0 <= k < |parts| ==> !HasChar(parts[k], sep)
    ensures Join(parts, [sep]) == cur + s
    decreases |s|
  {
    if s == [] then [cur]
    else if s[0] == sep then
      var rest := SplitFrom(s[1..], sep, []);
      assert Join([cur] + rest, [sep]) == cur + [sep] + Join(rest, [sep]) by {
        JoinCons(cur, rest, [sep]);
      }
      assert cur + [sep] + s[1..] == cur + s;
      [cur] + rest
    else
      var rest := SplitFrom(s[1..], sep, cur + [s[0]]);
      assert cur + [s[0]] + s[1..] == cur + s;
      rest
  }

  /** `parts.join(sep)`. */
  function Join(parts: seq<string>, sep: string): string {
    if parts == [] then []
    else if |parts| == 1 then parts[0]
    else parts[0] + sep + Join(parts[1..], sep)
  }

  lemma JoinCons(p: string, rest: seq<string>, sep: string)
    requires rest != []
    ensures Join([p] + rest, sep) == p + sep + Join(rest, sep)
  {
    assert ([p] + rest)[1..] == rest;
  }

  lemma JoinSnoc(parts: seq<string>, last: string, sep: string)
    requires parts != []
    ensures Join(parts + [last], sep) == Join(parts, sep) + sep + last
  {
    if |parts| == 1 {
      assert parts + [last] == [parts[0], last];
    } else {
      assert (parts + [last])[1..] == parts[1..] + [last];
      JoinSnoc(parts[1..], last, sep);
    }
  }

  lemma {:induction false} SplitFromPiece(p: string, t: string, sep: char, cur: string)
    requires !HasChar(p, sep) && !HasChar(cur, sep)
    ensures SplitFrom(p + t, sep, cur) == SplitFrom(t, sep, cur + p)
    decreases |p|
  {
    if p == [] {
      assert p + t == t && cur + p == cur;
    } else {
      assert (p + t)[0] == p[0] && (p + t)[1..] == p[1..] + t;
      assert p[0] != sep by { assert p[0] == p[0]; }
      assert !HasChar(cur + [p[0]], sep) by {
        forall i | 0 <= i < |cur| + 1 ensures (cur + [p[0]])[i] != sep {
          if i < |cur| { assert (cur + [p[0]])[i] == cur[i]; }
        }
      }
      assert !HasChar(p[1..], sep) by {
        forall i | 0 <= i < |p| - 1 ensures p[1..][i] != sep { assert p[1..][i] == p[i + 1]; }
      }
      SplitFromPiece(p[1..], t, sep, cur + [p[0]]);
      assert cur + [p[0]] + p[1..] == cur + p;
    }
  }

  lemma {:induction false} SplitFromJoin(parts: seq<string>, sep: char)
    requires parts != []
    requires forall k :: 0 <= k < |parts| ==> !HasChar(parts[k], sep)
    ensures SplitFrom(Join(parts, [sep]), sep, []) == parts
    decreases |parts|
  {
    var p := parts[0];
    if |parts| == 1 {
      SplitFromPiece(p, [], sep, []);
      assert p + [] == p && [] + p == p;
    } else {
      var rest := parts[1..];
      var j := Join(rest, [sep]);
      assert Join(parts, [sep]) == p + ([sep] + j);
      SplitFromPiece(p, [sep] + j, sep, []);
      assert [] + p == p;
      assert ([sep] + j)[1..] == j;
      SplitFromJoin(rest, sep);
      assert parts == [p] + rest;
    }
  }

  /** Splitting undoes joining when no piece holds the separator. */
  lemma SplitJoin(parts: seq<string>, sep: char)
    requires parts != []
    requires forall k :: 0 <= k < |parts| ==> !HasChar(parts[k], sep)
    ensures Split(Join(parts, [sep]), sep) == parts
  {
    SplitFromJoin(parts, sep);
  }

  /** `s.split(sep)[0]`: the text before the first separator, or all of a
      separator-free string. */
  lemma SplitFirst(p: string, t: string, sep: char)
    requires !HasChar(p, sep)
    ensures Split(p + [sep] + t, sep)[0] == p
    ensures Split(p, sep) == [p]
  {
    assert p + [sep] + t == p + ([sep] + t);
    assert [] + p == p;
    SplitFromPiece(p, [sep] + t, sep, []);
    assert ([sep] + t)[0] == sep && ([sep] + t)[1..] == t;
    SplitFromPiece(p, [], sep, []);
    assert p + [] == p;
  }

  /** Trimming only removes characters, so it never introduces one. */
  lemma TrimHasChar(s: string, c: char)
    requires HasChar(Trim(s), c)
    ensures HasChar(s, c)
  {
    var t := TrimStart(s);
    var r := TrimEnd(t);
    var i :| 0 <= i < |r| && r[i] == c;
    assert t[i] == c;
    assert s[|s| - |t| + i] == c;
  }

  /** Keep the non-empty strings, in order (`filter(Boolean)` on strings). */
  function NonEmpty(xs: seq<string>): (r: seq<string>)
    ensures |r| <= |xs|
    ensures forall k :: 0 <= k < |r| ==> r[k] != []
  {
    if xs == [] then []
    else if xs[0] == [] then NonEmpty(xs[1..])
    else [xs[0]] + NonEmpty(xs[1..])
  }

  lemma {:induction false} NonEmptyConcat(a: seq<string>, b: seq<string>)
    ensures NonEmpty(a + b) == NonEmpty(a) + NonEmpty(b)
  {
    if a == [] {
      assert a + b == b;
    } else {
      assert (a + b)[1..] == a[1..] + b;
      NonEmptyConcat(a[1..], b);
    }
  }

  lemma {:induction false} NonEmptyIdempotent(xs: seq<string>)
    ensures NonEmpty(NonEmpty(xs)) == NonEmpty(xs)
  {
    if xs != [] {
      NonEmptyIdempotent(xs[1..]);
      if xs[0] != [] {
        assert ([xs[0]] + NonEmpty(xs[1..]))[1..] == NonEmpty(xs[1..]);
      }
    }
  }

  lemma {:induction false} NonEmptyOfNonEmpty(xs: seq<string>)
    requires forall k :: 0 <= k < |xs| ==> xs[k] != []
    ensures NonEmpty(xs) == xs
  {
    if xs != [] {
      NonEmptyOfNonEmpty(xs[1..]);
      assert xs == [xs[0]] + xs[1..];
    }
  }

  /** Element-wise `toLowerCase`. */
  function LowerAll(xs: seq<string>): (r: seq<string>)
    ensures |r| == |xs|
    ensures forall k :: 0 <= k < |xs| ==> r[k] == Lower(xs[k])
  {
    if xs == [] then [] else [Lower(xs[0])] + LowerAll(xs[1..])
  }

  /** Element-wise `trim`. */
  function TrimAll(xs: seq<string>): (r: seq<string>)
    ensures |r| == |xs|
    ensures forall k :: 0 <= k < |xs| ==> r[k] == Trim(xs[k])
  {
    if xs == [] then [] else [Trim(xs[0])] + TrimAll(xs[1..])
  }

  /** Decimal rendering of an integer, as `String(n)` does. */
  function IntToString(n: int): (r: string)
    ensures r != []
  {
    if n < 0 then "-" + NatToString(-n) else NatToString(n)
  }

  function NatToString(n: nat): (r: string)
    ensures r != []
    ensures forall i :: 0 <= i < |r| ==> IsDigit(r[i])
  {
    if n < 10 then [('0' as int + n) as char]
    else NatToString(n / 10) + [('0' as int + n % 10) as char]
  }
}

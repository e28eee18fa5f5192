/** URL slugs for rescues (src/lib/utils/slug.ts). `slugify` lower-cases,
    replaces every run of characters outside [a-z0-9] with one dash, strips
    leading and trailing dashes, collapses dash runs and trims; `buildSlug`
    falls back to "rescue" when nothing is left. */
module Slug {
  import opened Strings

  /** The regex class [a-z0-9]. */
  predicate IsSlugChar(c: char) { IsLowerAlpha(c) || IsDigit(c) }

  /** Characters a slug may hold: [a-z0-9-]. */
  predicate OkChar(c: char) { IsSlugChar(c) || c == '-' }

  predicate OkChars(s: string) { forall i :: 0 <= i < |s| ==> OkChar(s[i]) }

  /** A "--" starts at position i. */
  predicate DoubleDashAt(s: string, i: int)
    requires 0 <= i < |s| - 1
  {
    s[i] == '-' && s[i + 1] == '-'
  }

  predicate NoDoubleDash(s: string) {
    forall i :: 0 <= i < |s| - 1 ==> !DoubleDashAt(s, i)
  }

  predicate HasSlugChar(s: string) { exists i :: 0 <= i < |s| && IsSlugChar(s[i]) }

  /** An ASCII letter of either case, or a digit. */
  predicate IsAsciiAlnum(c: char) { IsUpper(c) || IsLowerAlpha(c) || IsDigit(c) }

  predicate HasAsciiAlnum(s: string) { exists i :: 0 <= i < |s| && IsAsciiAlnum(s[i]) }

  /** A well-formed slug: non-empty, [a-z0-9-] only, no dash at either end, no "--". */
  predicate IsSlug(s: string) {
    && s != []
    && OkChars(s)
    && s[0] != '-' && s[|s| - 1] != '-'
    && NoDoubleDash(s)
  }

  /** The onboarding form's pattern `^[a-z0-9-]+$`. */
  predicate MatchesSlugPattern(s: string) { s != [] && OkChars(s) }

  // ----- The steps of `slugify` -----

  /** Drop the leading characters outside [a-z0-9]. */
  function DropNonSlug(s: string): (r: string)
    ensures |r| <= |s|
    ensures r == [] || IsSlugChar(r[0])
  {
    if s != [] && !IsSlugChar(s[0]) then DropNonSlug(s[1..]) else s
  }

  /** `.replace(/[^a-z0-9]+/g, '-')`: each maximal run outside [a-z0-9] becomes one dash. */
  function ReplaceRuns(s: string): string
    decreases |s|
  {
    if s == [] then []
    else if IsSlugChar(s[0]) then [s[0]] + ReplaceRuns(s[1..])
    else ['-'] + ReplaceRuns(DropNonSlug(s[1..]))
  }

  function StripLeadingDashes(s: string): (r: string)
    ensures |r| <= |s|
    ensures r == [] || r[0] != '-'
  {
    if s != [] && s[0] == '-' then StripLeadingDashes(s[1..]) else s
  }

  function StripTrailingDashes(s: string): (r: string)
    ensures |r| <= |s|
    ensures r == [] || r[|r| - 1] != '-'
  {
    if s != [] && s[|s| - 1] == '-' then StripTrailingDashes(s[..|s| - 1]) else s
  }

  /** `.replace(/^-+|-+$/g, '')`. */
  function StripDashes(s: string): string {
    StripTrailingDashes(StripLeadingDashes(s))
  }

  /** Drop leading dashes (the tail of a `--+` run). */
  function DropDashes(s: string): (r: string)
    ensures |r| <= |s|
  {
    if s != [] && s[0] == '-' then DropDashes(s[1..]) else s
  }

  /** `.replace(/--+/g, '-')`: every run of dashes becomes a single dash. */
  function CollapseDashes(s: string): string
    decreases |s|
  {
    if s == [] then []
    else if s[0] == '-' then "-" + CollapseDashes(DropDashes(s[1..]))
    else [s[0]] + CollapseDashes(s[1..])
  }

  /** `slugify` exactly as the source chains it. */
  function Slugify(s: string): string {
    Trim(CollapseDashes(StripDashes(ReplaceRuns(Lower(s)))))
  }

  /** `buildSlug`. */
  function BuildSlug(s: string): string {
    var cleaned := Slugify(s);
    if |cleaned| > 0 then cleaned else "rescue"
  }

  // ----- Small facts about the steps -----

  lemma HasSlugCharCons(c: char, t: string)
    ensures HasSlugChar([c] + t) <==> IsSlugChar(c) || HasSlugChar(t)
  {
    assert ([c] + t)[0] == c;
    if HasSlugChar(t) {
      var i :| 0 <= i < |t| && IsSlugChar(t[i]);
      assert ([c] + t)[i + 1] == t[i];
    }
    if HasSlugChar([c] + t) {
      var i :| 0 <= i < |[c] + t| && IsSlugChar(([c] + t)[i]);
      if i > 0 {
        assert t[i - 1] == ([c] + t)[i];
      }
    }
  }

  lemma HasSlugCharSnoc(t: string, c: char)
    ensures HasSlugChar(t + [c]) <==> HasSlugChar(t) || IsSlugChar(c)
  {
    assert (t + [c])[|t|] == c;
    if HasSlugChar(t) {
      var i :| 0 <= i < |t| && IsSlugChar(t[i]);
      assert (t + [c])[i] == t[i];
    }
    if HasSlugChar(t + [c]) {
      var i :| 0 <= i < |t + [c]| && IsSlugChar((t + [c])[i]);
      if i < |t| {
        assert t[i] == (t + [c])[i];
      } else {
        assert (t + [c])[i] == c;
      }
    }
  }

  lemma OkCharsCons(c: char, t: string)
    ensures OkChars([c] + t) <==> OkChar(c) && OkChars(t)
  {
    if OkChars([c] + t) {
      assert OkChar(([c] + t)[0]);
      forall i | 0 <= i < |t| ensures OkChar(t[i]) { assert t[i] == ([c] + t)[i + 1]; }
    }
  }

  lemma NoDoubleDashCons(c: char, t: string)
    requires NoDoubleDash(t)
    requires c != '-' || t == [] || t[0] != '-'
    ensures NoDoubleDash([c] + t)
  {
    var u := [c] + t;
    forall i | 0 <= i < |u| - 1 ensures !DoubleDashAt(u, i) {
      if i > 0 {
        assert !DoubleDashAt(t, i - 1);
      }
    }
  }

  /** A contiguous piece of a string keeps its character-class and "--" properties. */
  lemma SliceKeeps(s: string, lo: int, hi: int)
    requires 0 <= lo <= hi <= |s|
    ensures OkChars(s) ==> OkChars(s[lo..hi])
    ensures NoDoubleDash(s) ==> NoDoubleDash(s[lo..hi])
  {
    var t := s[lo..hi];
    if OkChars(s) {
      forall i | 0 <= i < |t| ensures OkChar(t[i]) { assert t[i] == s[lo + i]; }
    }
    if NoDoubleDash(s) {
      forall i | 0 <= i < |t| - 1 ensures !DoubleDashAt(t, i) {
        assert !DoubleDashAt(s, lo + i);
      }
    }
  }

  lemma {:induction false} DropNonSlugSuffix(s: string)
    ensures DropNonSlug(s) == s[|s| - |DropNonSlug(s)|..]
    decreases |s|
  {
    if s != [] && !IsSlugChar(s[0]) {
      DropNonSlugSuffix(s[1..]);
      assert s[1..][|s| - 1 - |DropNonSlug(s)|..] == s[|s| - |DropNonSlug(s)|..];
    }
  }

  /** Dropping characters outside [a-z0-9] keeps every [a-z0-9] character. */
  lemma {:induction false} DropNonSlugKeeps(s: string)
    ensures HasSlugChar(DropNonSlug(s)) <==> HasSlugChar(s)
    decreases |s|
  {
    if s != [] && !IsSlugChar(s[0]) {
      DropNonSlugKeeps(s[1..]);
      HasSlugCharCons(s[0], s[1..]);
      assert s == [s[0]] + s[1..];
    }
  }

  lemma {:induction false} StripLeadingSuffix(s: string)
    ensures StripLeadingDashes(s) == s[|s| - |StripLeadingDashes(s)|..]
    decreases |s|
  {
    if s != [] && s[0] == '-' {
      StripLeadingSuffix(s[1..]);
      assert s[1..][|s| - 1 - |StripLeadingDashes(s)|..] == s[|s| - |StripLeadingDashes(s)|..];
    }
  }

  lemma {:induction false} StripTrailingPrefix(s: string)
    ensures StripTrailingDashes(s) == s[..|StripTrailingDashes(s)|]
    decreases |s|
  {
    if s != [] && s[|s| - 1] == '-' {
      StripTrailingPrefix(s[..|s| - 1]);
    }
  }

  lemma {:induction false} StripLeadingKeeps(s: string)
    ensures HasSlugChar(StripLeadingDashes(s)) <==> HasSlugChar(s)
    decreases |s|
  {
    if s != [] && s[0] == '-' {
      StripLeadingKeeps(s[1..]);
      HasSlugCharCons(s[0], s[1..]);
      assert s == [s[0]] + s[1..];
    }
  }

  lemma {:induction false} StripTrailingKeeps(s: string)
    ensures HasSlugChar(StripTrailingDashes(s)) <==> HasSlugChar(s)
    decreases |s|
  {
    if s != [] && s[|s| - 1] == '-' {
      var t := s[..|s| - 1];
      StripTrailingKeeps(t);
      HasSlugCharSnoc(t, '-');
      assert s == t + ['-'];
    }
  }

  /** The dash replacement leaves only [a-z0-9-], never "--", and loses no [a-z0-9] character. */
  lemma {:induction false} ReplaceRunsShape(s: string)
    ensures OkChars(ReplaceRuns(s)) && NoDoubleDash(ReplaceRuns(s))
    ensures s != [] && IsSlugChar(s[0]) ==> ReplaceRuns(s) != [] && ReplaceRuns(s)[0] == s[0]
    ensures HasSlugChar(ReplaceRuns(s)) <==> HasSlugChar(s)
    decreases |s|
  {
    if s != [] {
      HasSlugCharCons(s[0], s[1..]);
      assert s == [s[0]] + s[1..];
      if IsSlugChar(s[0]) {
        var rest := ReplaceRuns(s[1..]);
        ReplaceRunsShape(s[1..]);
        OkCharsCons(s[0], rest);
        NoDoubleDashCons(s[0], rest);
        HasSlugCharCons(s[0], rest);
      } else {
        var t := DropNonSlug(s[1..]);
        var rest := ReplaceRuns(t);
        ReplaceRunsShape(t);
        DropNonSlugKeeps(s[1..]);
        OkCharsCons('-', rest);
        NoDoubleDashCons('-', rest);
        HasSlugCharCons('-', rest);
      }
    }
  }

  /** Stripping edge dashes leaves no dash at either end and drops nothing but dashes. */
  lemma StripDashesShape(s: string)
    ensures var r := StripDashes(s); r == [] || (r[0] != '-' && r[|r| - 1] != '-')
    ensures OkChars(s) ==> OkChars(StripDashes(s))
    ensures NoDoubleDash(s) ==> NoDoubleDash(StripDashes(s))
    ensures HasSlugChar(StripDashes(s)) <==> HasSlugChar(s)
  {
    var a := StripLeadingDashes(s);
    var r := StripTrailingDashes(a);
    var off := |s| - |a|;
    StripLeadingSuffix(s);
    StripTrailingPrefix(a);
    assert r == s[off..off + |r|];
    SliceKeeps(s, off, off + |r|);
    StripLeadingKeeps(s);
    StripTrailingKeeps(a);
  }

  lemma {:induction false} CollapseFixpoint(s: string)
    requires NoDoubleDash(s)
    ensures CollapseDashes(s) == s
    decreases |s|
  {
    if s != [] {
      SliceKeeps(s, 1, |s|);
      assert s[1..|s|] == s[1..];
      if s[0] == '-' {
        if |s| > 1 {
          assert !DoubleDashAt(s, 0);
        }
        assert DropDashes(s[1..]) == s[1..];
      }
      CollapseFixpoint(s[1..]);
    }
  }

  lemma OkCharsNoSpace(t: string)
    requires OkChars(t)
    ensures NoSpace(t)
  {
  }

  lemma TrimNoSpace(t: string)
    requires NoSpace(t)
    ensures Trim(t) == t
  {
    if t != [] {
      TrimOfTrimmed(t);
    }
  }

  /** Neither collapsing nor trimming changes anything after the first two steps. */
  lemma SlugifySimplified(s: string)
    ensures Slugify(s) == StripDashes(ReplaceRuns(Lower(s)))
  {
    var t := StripDashes(ReplaceRuns(Lower(s)));
    ReplaceRunsShape(Lower(s));
    StripDashesShape(ReplaceRuns(Lower(s)));
    CollapseFixpoint(t);
    OkCharsNoSpace(t);
    TrimNoSpace(t);
  }

  lemma LowerHasSlugChar(s: string)
    ensures HasSlugChar(Lower(s)) <==> HasAsciiAlnum(s)
  {
    if HasAsciiAlnum(s) {
      var i :| 0 <= i < |s| && IsAsciiAlnum(s[i]);
      assert IsSlugChar(Lower(s)[i]);
    }
    if HasSlugChar(Lower(s)) {
      var i :| 0 <= i < |Lower(s)| && IsSlugChar(Lower(s)[i]);
      assert IsAsciiAlnum(s[i]);
    }
  }

  // ----- Properties of `buildSlug` -----

  /** What `slugify` leaves is a slug unless it is empty, and it is empty
      exactly when the input has no ASCII letter or digit. */
  lemma SlugifyShape(s: string)
    ensures Slugify(s) == [] || IsSlug(Slugify(s))
    ensures Slugify(s) == [] <==> !HasAsciiAlnum(s)
  {
    SlugifySimplified(s);
    LowerHasSlugChar(s);
    ReplaceRunsShape(Lower(s));
    StripDashesShape(ReplaceRuns(Lower(s)));
    var t := StripDashes(ReplaceRuns(Lower(s)));
    if t != [] {
      assert IsSlugChar(t[0]);
    }
  }

  lemma RescueIsSlug()
    ensures IsSlug("rescue")
  {
    assert NoDoubleDash("rescue") by {
      forall i | 0 <= i < 5 ensures !DoubleDashAt("rescue", i) { }
    }
  }

  /** Every `buildSlug` result is a well-formed slug, so it also matches `^[a-z0-9-]+$`. */
  lemma BuildSlugIsSlug(s: string)
    ensures IsSlug(BuildSlug(s))
    ensures MatchesSlugPattern(BuildSlug(s))
  {
    SlugifyShape(s);
    RescueIsSlug();
  }

  /** Input with no ASCII letter or digit yields "rescue"; any other input yields the cleaned text. */
  lemma BuildSlugFallback(s: string)
    ensures !HasAsciiAlnum(s) ==> BuildSlug(s) == "rescue"
    ensures HasAsciiAlnum(s) ==> BuildSlug(s) == Slugify(s) && Slugify(s) != []
  {
    SlugifyShape(s);
  }

  lemma {:induction false} ReplaceRunsFixpoint(s: string)
    requires OkChars(s) && NoDoubleDash(s)
    ensures ReplaceRuns(s) == s
    decreases |s|
  {
    if s != [] {
      var t := s[1..];
      SliceKeeps(s, 1, |s|);
      assert s[1..|s|] == t;
      assert OkChar(s[0]);
      if s[0] == '-' && t != [] {
        assert !DoubleDashAt(s, 0);
        assert OkChar(s[1]);
      }
      ReplaceRunsFixpoint(t);
    }
  }

  /** A well-formed slug is a fixed point of `buildSlug`. */
  lemma BuildSlugOfSlug(t: string)
    requires IsSlug(t)
    ensures BuildSlug(t) == t
  {
    assert Lower(t) == t;
    ReplaceRunsFixpoint(t);
    SlugifySimplified(t);
  }

  /** `buildSlug` is idempotent, so re-slugging a slug (as onboarding does) is harmless. */
  lemma BuildSlugIdempotent(s: string)
    ensures BuildSlug(BuildSlug(s)) == BuildSlug(s)
  {
    BuildSlugIsSlug(s);
    BuildSlugOfSlug(BuildSlug(s));
  }

  // ----- A reference definition: the slug is the alphanumeric words joined by dashes -----

  /** The longest prefix made of [a-z0-9]. */
  function TakeSlug(s: string): (r: string)
    ensures |r| <= |s|
    ensures s != [] && IsSlugChar(s[0]) ==> r != [] && r[0] == s[0]
  {
    if s != [] && IsSlugChar(s[0]) then [s[0]] + TakeSlug(s[1..]) else []
  }

  /** The maximal runs of [a-z0-9] in s, left to right. */
  function Words(s: string): seq<string>
    decreases |s|
  {
    var t := DropNonSlug(s);
    if t == [] then []
    else
      var w := TakeSlug(t);
      [w] + Words(t[|w|..])
  }

  lemma {:induction false} TakeSlugShape(s: string)
    ensures TakeSlug(s) == s[..|TakeSlug(s)|]
    ensures TakeSlug(s) != [] ==> IsSlugChar(TakeSlug(s)[|TakeSlug(s)| - 1])
    ensures |TakeSlug(s)| < |s| ==> !IsSlugChar(s[|TakeSlug(s)|])
    decreases |s|
  {
    if s != [] && IsSlugChar(s[0]) {
      TakeSlugShape(s[1..]);
    }
  }

  lemma {:induction false} ReplaceRunsWord(u: string)
    requires u != [] && IsSlugChar(u[0])
    ensures ReplaceRuns(u) == TakeSlug(u) + ReplaceRuns(u[|TakeSlug(u)|..])
    decreases |u|
  {
    var v := u[1..];
    assert ReplaceRuns(u) == [u[0]] + ReplaceRuns(v);
    assert TakeSlug(u) == [u[0]] + TakeSlug(v);
    if v != [] && IsSlugChar(v[0]) {
      ReplaceRunsWord(v);
      var k := |TakeSlug(v)|;
      assert v[k..] == u[k + 1..];
    } else {
      assert TakeSlug(v) == [];
      assert u[1..] == v;
    }
  }

  function TailDash(u: string): string {
    if u != [] && !IsSlugChar(u[|u| - 1]) then "-" else ""
  }

  /** Words of a string that starts inside a word. */
  lemma WordsFromWord(u: string)
    requires u != [] && IsSlugChar(u[0])
    ensures Words(u) == [TakeSlug(u)] + Words(u[|TakeSlug(u)|..])
  {
    assert DropNonSlug(u) == u;
  }

  /** Leading characters outside [a-z0-9] contribute no words. */
  lemma WordsSkip(s: string)
    ensures Words(s) == Words(DropNonSlug(s))
  {
    var t := DropNonSlug(s);
    if t != [] {
      assert DropNonSlug(t) == t;
    }
  }

  /** After a word ends, the replacement is one dash followed by the rest. */
  lemma ReplaceRunsAfterWord(rest: string)
    requires rest != [] && !IsSlugChar(rest[0])
    ensures ReplaceRuns(rest) == "-" + ReplaceRuns(DropNonSlug(rest))
  {
    assert DropNonSlug(rest) == DropNonSlug(rest[1..]);
  }

  /** A word is followed by nothing, or by a character outside [a-z0-9]. */
  lemma WordBoundary(u: string)
    requires u != [] && IsSlugChar(u[0])
    ensures var w := TakeSlug(u); var rest := u[|w|..];
      (rest == [] ==> TailDash(u) == "") && (rest != [] ==> !IsSlugChar(rest[0]))
  {
    TakeSlugShape(u);
    var w := TakeSlug(u);
    if u[|w|..] == [] {
      assert u == w;
    }
  }

  /** A suffix whose [a-z0-9] characters ran out ends the text outside a word. */
  lemma TailDashOfSuffix(u: string, rest: string)
    requires rest != [] && |rest| <= |u| && rest == u[|u| - |rest|..]
    ensures !IsSlugChar(rest[|rest| - 1]) ==> TailDash(u) == "-"
    ensures TailDash(u) == TailDash(rest)
  {
    assert u[|u| - 1] == rest[|rest| - 1];
  }

  lemma NoWordsLastChar(rest: string)
    requires rest != [] && DropNonSlug(rest) == []
    ensures !IsSlugChar(rest[|rest| - 1])
  {
    DropNonSlugKeeps(rest);
    assert !HasSlugChar(rest);
  }

  /** From a word boundary, the dash replacement is the words joined by dashes,
      plus one dash if the text ends outside a word. */
  lemma {:induction false} ReplaceRunsFromWord(u: string)
    requires u == [] || IsSlugChar(u[0])
    ensures ReplaceRuns(u) == Join(Words(u), "-") + TailDash(u)
    decreases |u|
  {
    if u != [] {
      var rest := u[|TakeSlug(u)|..];
      if rest == [] {
        ReplaceRunsWord(u);
        WordsFromWord(u);
        WordBoundary(u);
      } else if DropNonSlug(rest) == [] {
        ReplaceRunsLastWord(u, rest);
      } else {
        var v := DropNonSlug(rest);
        DropNonSlugSuffix(rest);
        ReplaceRunsFromWord(v);
        ReplaceRunsNextWord(u, rest, v);
      }
    }
  }

  /** The step for a last word followed only by characters outside [a-z0-9]. */
  lemma ReplaceRunsLastWord(u: string, rest: string)
    requires u != [] && IsSlugChar(u[0])
    requires rest == u[|TakeSlug(u)|..] && rest != [] && DropNonSlug(rest) == []
    ensures ReplaceRuns(u) == Join(Words(u), "-") + TailDash(u)
  {
    ReplaceRunsWord(u);
    WordsFromWord(u);
    WordBoundary(u);
    ReplaceRunsAfterWord(rest);
    WordsSkip(rest);
    DropNonSlugSuffix(rest);
    TailDashOfSuffix(u, rest);
    NoWordsLastChar(rest);
    assert Words(rest) == [];
  }

  /** The step for a word followed by a gap and more words, given the
      replacement from the next word on. */
  lemma ReplaceRunsNextWord(u: string, rest: string, v: string)
    requires u != [] && IsSlugChar(u[0])
    requires rest == u[|TakeSlug(u)|..] && rest != [] && v == DropNonSlug(rest) && v != []
    requires ReplaceRuns(v) == Join(Words(v), "-") + TailDash(v)
    ensures ReplaceRuns(u) == Join(Words(u), "-") + TailDash(u)
  {
    var w := TakeSlug(u);
    ReplaceRunsWord(u);
    WordsFromWord(u);
    WordBoundary(u);
    ReplaceRunsAfterWord(rest);
    WordsSkip(rest);
    DropNonSlugSuffix(rest);
    TailDashOfSuffix(u, rest);
    WordsFromWord(v);
    var ws := Words(v);
    var j := Join(ws, "-");
    var td := TailDash(v);
    JoinCons(w, ws, "-");
    TailDashOfSuffix(rest, v);
    ConcatAssoc(w, "-", j, td);
  }

  lemma {:induction false} StripLeadingConcat(a: string, m: string)
    requires forall i :: 0 <= i < |a| ==> a[i] == '-'
    requires m == [] || m[0] != '-'
    ensures StripLeadingDashes(a + m) == m
    decreases |a|
  {
    if a != [] {
      assert (a + m)[1..] == a[1..] + m;
      StripLeadingConcat(a[1..], m);
    } else {
      assert a + m == m;
    }
  }

  lemma {:induction false} StripTrailingConcat(m: string, b: string)
    requires forall i :: 0 <= i < |b| ==> b[i] == '-'
    requires m == [] || m[|m| - 1] != '-'
    ensures StripTrailingDashes(m + b) == m
    decreases |b|
  {
    if b != [] {
      assert (m + b)[..|m + b| - 1] == m + b[..|b| - 1];
      StripTrailingConcat(m, b[..|b| - 1]);
    } else {
      assert m + b == m;
    }
  }

  /** Every word is non-empty and starts and ends with [a-z0-9]. */
  lemma {:induction false} WordsShape(s: string)
    ensures forall k :: 0 <= k < |Words(s)| ==>
      Words(s)[k] != [] && IsSlugChar(Words(s)[k][0]) && IsSlugChar(Words(s)[k][|Words(s)[k]| - 1])
    decreases |s|
  {
    var t := DropNonSlug(s);
    if t != [] {
      var w := TakeSlug(t);
      TakeSlugShape(t);
      WordsShape(t[|w|..]);
      assert Words(s) == [w] + Words(t[|w|..]);
    }
  }

  lemma JoinWordsEnds(ws: seq<string>)
    requires ws != []
    requires forall k :: 0 <= k < |ws| ==> ws[k] != [] && IsSlugChar(ws[k][0]) && IsSlugChar(ws[k][|ws[k]| - 1])
    ensures var j := Join(ws, "-"); j != [] && j[0] != '-' && j[|j| - 1] != '-'
  {
    if |ws| > 1 {
      JoinWordsEnds(ws[1..]);
      JoinCons(ws[0], ws[1..], "-");
      assert ws == [ws[0]] + ws[1..];
    }
  }

  /** The replacement of a string with no [a-z0-9] character is at most one dash. */
  lemma ReplaceRunsNoWords(l: string)
    requires DropNonSlug(l) == []
    ensures ReplaceRuns(l) == [] || ReplaceRuns(l) == "-"
    ensures Words(l) == []
  {
    if l != [] {
      assert DropNonSlug(l[1..]) == [];
    }
  }

  /** Leading characters outside [a-z0-9] become at most one dash. */
  lemma ReplaceRunsLead(l: string)
    requires DropNonSlug(l) != []
    ensures ReplaceRuns(l) == (if IsSlugChar(l[0]) then "" else "-") + ReplaceRuns(DropNonSlug(l))
  {
    if !IsSlugChar(l[0]) {
      assert DropNonSlug(l[1..]) == DropNonSlug(l);
    } else {
      assert DropNonSlug(l) == l;
    }
  }

  function LeadDash(l: string): string
    requires l != []
  {
    if IsSlugChar(l[0]) then "" else "-"
  }

  /** The replacement of text with at least one word: an optional leading dash,
      the words joined by dashes, an optional trailing dash. */
  lemma ReplaceRunsIsWords(l: string)
    requires DropNonSlug(l) != []
    ensures ReplaceRuns(l) == LeadDash(l) + (Join(Words(l), "-") + TailDash(DropNonSlug(l)))
  {
    var t := DropNonSlug(l);
    WordsSkip(l);
    ReplaceRunsLead(l);
    ReplaceRunsFromWord(t);
  }

  lemma JoinedWordsEnds(l: string)
    requires DropNonSlug(l) != []
    ensures var m := Join(Words(l), "-"); m != [] && m[0] != '-' && m[|m| - 1] != '-'
  {
    var t := DropNonSlug(l);
    WordsSkip(l);
    WordsFromWord(t);
    WordsShape(l);
    JoinWordsEnds(Words(l));
  }

  /** Stripping edge dashes removes exactly an optional dash on each side of m. */
  lemma StripAround(lead: string, m: string, td: string)
    requires lead == "" || lead == "-"
    requires td == "" || td == "-"
    requires m != [] && m[0] != '-' && m[|m| - 1] != '-'
    ensures StripDashes(lead + (m + td)) == m
  {
    StripLeadingConcat(lead, m + td);
    StripTrailingConcat(m, td);
  }

  /** Cleaning text that holds a word leaves exactly its words joined by dashes. */
  lemma StripReplaceRuns(l: string)
    requires DropNonSlug(l) != []
    ensures StripDashes(ReplaceRuns(l)) == Join(Words(l), "-")
  {
    var m := Join(Words(l), "-");
    ReplaceRunsIsWords(l);
    JoinedWordsEnds(l);
    StripAround(LeadDash(l), m, TailDash(DropNonSlug(l)));
  }

  /** Reference definition: the cleaned slug is the lower-cased text's [a-z0-9]
      words joined by single dashes. */
  lemma SlugifyIsJoinedWords(s: string)
    ensures Slugify(s) == Join(Words(Lower(s)), "-")
  {
    var l := Lower(s);
    SlugifySimplified(s);
    if DropNonSlug(l) == [] {
      ReplaceRunsNoWords(l);
    } else {
      StripReplaceRuns(l);
    }
  }
}

/** Form-field parsing (src/lib/utils/form.ts): comma-separated tag lists
    and checkbox-style booleans. */
module Form {
  import opened Strings

  /** A `FormData` entry: text, an uploaded file, or absent (null). */
  datatype FormValue = Text(s: string) | FileEntry | Missing

  /** A tag as `parseTagList` returns it: non-empty, trimmed, comma-free. */
  predicate CleanTag(t: string) {
    t != [] && !IsSpace(t[0]) && !IsSpace(t[|t| - 1]) && !HasChar(t, ',')
  }

  predicate AllClean(ts: seq<string>) { forall k :: 0 <= k < |ts| ==> CleanTag(ts[k]) }

  predicate NoComma(pieces: seq<string>) { forall k :: 0 <= k < |pieces| ==> !HasChar(pieces[k], ',') }

  /** `parseTagList`: split on ',', trim each piece, drop the empty ones. */
  function ParseTagList(v: FormValue): (r: seq<string>)
    ensures !v.Text? ==> r == []
    ensures AllClean(r)
  {
    match v
    case Text(s) =>
      var pieces := Split(s, ',');
      TagsClean(pieces);
      NonEmpty(TrimAll(pieces))
    case _ => []
  }

  /** A comma-free piece that does not trim to "" trims to a clean tag. */
  lemma CleanTrimmed(p: string)
    requires !HasChar(p, ',') && Trim(p) != []
    ensures CleanTag(Trim(p))
  {
    if HasChar(Trim(p), ',') {
      TrimHasChar(p, ',');
    }
  }

  lemma AllCleanCons(t: string, ts: seq<string>)
    requires CleanTag(t) && AllClean(ts)
    ensures AllClean([t] + ts)
  {
    var r := [t] + ts;
    forall k | 0 <= k < |r| ensures CleanTag(r[k]) {
      if k > 0 { assert r[k] == ts[k - 1]; }
    }
  }

  lemma {:induction false} TagsClean(pieces: seq<string>)
    requires NoComma(pieces)
    ensures AllClean(NonEmpty(TrimAll(pieces)))
  {
    if pieces != [] {
      var rest := pieces[1..];
      assert NoComma(rest) by {
        forall k | 0 <= k < |rest| ensures !HasChar(rest[k], ',') { assert rest[k] == pieces[k + 1]; }
      }
      TagsClean(rest);
      var t := Trim(pieces[0]);
      var trimmed := TrimAll(pieces);
      assert trimmed[0] == t && trimmed[1..] == TrimAll(rest);
      if t != [] {
        assert !HasChar(pieces[0], ',');
        CleanTrimmed(pieces[0]);
        assert NonEmpty(trimmed) == [t] + NonEmpty(TrimAll(rest));
        AllCleanCons(t, NonEmpty(TrimAll(rest)));
      } else {
        assert NonEmpty(trimmed) == NonEmpty(TrimAll(rest));
      }
    }
  }

  /** Round trip: joining clean tags with "," and parsing gives them back in
      order, duplicates included. */
  lemma ParseTagListJoin(ts: seq<string>)
    requires AllClean(ts)
    ensures ParseTagList(Text(Join(ts, ","))) == ts
  {
    if ts == [] {
      assert Split([], ',') == [[]];
      assert TrimAll([[]]) == [[]];
    } else {
      var s := Join(ts, ",");
      assert Split(s, ',') == ts by { SplitJoin(ts, ','); }
      assert TrimAll(ts) == ts by {
        forall k | 0 <= k < |ts| ensures Trim(ts[k]) == ts[k] { TrimOfTrimmed(ts[k]); }
      }
      assert NonEmpty(ts) == ts by { NonEmptyOfNonEmpty(ts); }
    }
  }

  /** The strings `parseBoolean` reads as true, compared after lower-casing. */
  predicate TrueWord(w: string) { w == "true" || w == "1" || w == "on" || w == "yes" }

  /** `s` spells `w` when each character lower-cases to the matching one of `w`. */
  predicate SpellsIgnoringCase(s: string, w: string) {
    |s| == |w| && forall i :: 0 <= i < |s| ==> LowerChar(s[i]) == w[i]
  }

  /** `parseBoolean`: a text value is true iff it spells one of the true
      words in any case, untrimmed; anything else yields the fallback. */
  function ParseBoolean(v: FormValue, fallback: bool): (r: bool)
    ensures !v.Text? ==> r == fallback
    ensures v.Text? ==> (r <==>
      || SpellsIgnoringCase(v.s, "true") || SpellsIgnoringCase(v.s, "1")
      || SpellsIgnoringCase(v.s, "on") || SpellsIgnoringCase(v.s, "yes"))
  {
    match v
    case Text(s) =>
      SpellsIffLower(s, "true");
      SpellsIffLower(s, "1");
      SpellsIffLower(s, "on");
      SpellsIffLower(s, "yes");
      TrueWord(Lower(s))
    case _ => fallback
  }

  lemma SpellsIffLower(s: string, w: string)
    ensures SpellsIgnoringCase(s, w) <==> Lower(s) == w
  {
    if SpellsIgnoringCase(s, w) {
      assert forall i :: 0 <= i < |w| ==> Lower(s)[i] == w[i];
    }
  }

  /** The default fallback is false. */
  function ParseBooleanDefault(v: FormValue): (r: bool)
    ensures r ==> v.Text?
  {
    ParseBoolean(v, false)
  }

  /** Case does not matter: a value and its lower-cased form parse alike. */
  lemma ParseBooleanCaseInsensitive(s: string, fallback: bool)
    ensures ParseBoolean(Text(s), fallback) == ParseBoolean(Text(Lower(s)), fallback)
  {
    LowerIdempotent(s);
  }

  /** Surrounding whitespace is not trimmed, so " yes" reads as false while "YES" reads as true. */
  lemma ParseBooleanNoTrim()
    ensures !ParseBoolean(Text(" yes"), true)
    ensures ParseBoolean(Text("YES"), false)
  {
    assert Lower(" yes") == " yes";
    assert Lower("YES") == "yes";
  }

  /** `String(formData.get(name) ?? '')`: a missing field reads as "", an
      uploaded file as its string form. */
  function FieldString(v: FormValue): string {
    match v
    case Text(s) => s
    case Missing => ""
    case FileEntry => "[object File]"
  }
}

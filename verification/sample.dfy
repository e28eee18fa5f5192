/** The demo rescue page (src/routes/rescue/sample/+page.server.ts): sorted
    distinct filter options drawn from the fixed sample animals, and the
    species/status filter driven by the query string. */
module Sample {
  import opened Wrappers
  import opened Strings
  import opened Seqs

  /** The fields of a sample animal that the page logic reads. */
  datatype SampleAnimal = SampleAnimal(id: string, name: string, species: string, status: string)

  const SampleAnimals: seq<SampleAnimal> := [
    SampleAnimal("demo-cat-1", "Marble", "Cat", "available"),
    SampleAnimal("demo-dog-1", "Scout", "Dog", "hold"),
    SampleAnimal("demo-cat-2", "Juniper", "Cat", "available"),
    SampleAnimal("demo-dog-2", "River", "Dog", "available"),
    SampleAnimal("demo-rabbit-1", "Poppy", "Rabbit", "available"),
    SampleAnimal("demo-dog-3", "Luna", "Dog", "adopted")
  ]

  /** Character (code point) lexicographic order, standing in for `localeCompare` < 0. */
  predicate StrLt(a: string, b: string) {
    if a == [] then b != []
    else if b == [] then false
    else if a[0] != b[0] then a[0] < b[0]
    else StrLt(a[1..], b[1..])
  }

  lemma StrLtIrreflexive(a: string)
    ensures !StrLt(a, a)
  {
  }

  lemma {:induction false} StrLtTransitive(a: string, b: string, c: string)
    requires StrLt(a, b) && StrLt(b, c)
    ensures StrLt(a, c)
  {
    if a != [] && b != [] && c != [] && a[0] == b[0] && b[0] == c[0] {
      StrLtTransitive(a[1..], b[1..], c[1..]);
    }
  }

  lemma {:induction false} StrLtTotal(a: string, b: string)
    requires a != b
    ensures StrLt(a, b) || StrLt(b, a)
  {
    if a != [] && b != [] && a[0] == b[0] {
      assert a == [a[0]] + a[1..] && b == [b[0]] + b[1..];
      StrLtTotal(a[1..], b[1..]);
    }
  }

  /** Every element strictly precedes every later one. */
  predicate StrictlySorted(xs: seq<string>) {
    forall i, j :: 0 <= i < j < |xs| ==> StrLt(xs[i], xs[j])
  }

  /** One insertion step of the sort. `Sorting.SortBy` orders by an integer
      key; strings have no such key, so the option lists are sorted here by
      comparing with `StrLt` directly. */
  function Insert(x: string, xs: seq<string>): (r: seq<string>)
    ensures multiset(r) == multiset{x} + multiset(xs)
  {
    if xs == [] then [x]
    else if !StrLt(xs[0], x) then [x] + xs
    else
      assert xs == [xs[0]] + xs[1..];
      [xs[0]] + Insert(x, xs[1..])
  }

  /** `xs.sort((a, b) => a.localeCompare(b))`, by insertion. */
  function SortStrings(xs: seq<string>): (r: seq<string>)
    ensures multiset(r) == multiset(xs)
  {
    if xs == [] then []
    else
      assert xs == [xs[0]] + xs[1..];
      Insert(xs[0], SortStrings(xs[1..]))
  }

  lemma SortedTail(xs: seq<string>)
    requires StrictlySorted(xs) && xs != []
    ensures StrictlySorted(xs[1..])
  {
    forall i, j | 0 <= i < j < |xs| - 1 ensures StrLt(xs[1..][i], xs[1..][j]) {
      assert xs[1..][i] == xs[i + 1] && xs[1..][j] == xs[j + 1];
    }
  }

  /** An element below every element of a sorted list can go in front. */
  lemma PrependSorted(h: string, rest: seq<string>)
    requires StrictlySorted(rest)
    requires forall k :: 0 <= k < |rest| ==> StrLt(h, rest[k])
    ensures StrictlySorted([h] + rest)
  {
    var r := [h] + rest;
    forall i, j | 0 <= i < j < |r| ensures StrLt(r[i], r[j]) {
      if i > 0 {
        assert r[i] == rest[i - 1] && r[j] == rest[j - 1];
      } else {
        assert r[j] == rest[j - 1];
      }
    }
  }

  /** The head of a sorted list precedes everything after it. */
  lemma HeadBelowTail(xs: seq<string>)
    requires StrictlySorted(xs) && xs != []
    ensures forall k :: 0 <= k < |xs[1..]| ==> StrLt(xs[0], xs[1..][k])
  {
    forall k | 0 <= k < |xs[1..]| ensures StrLt(xs[0], xs[1..][k]) {
      assert xs[1..][k] == xs[k + 1];
    }
  }

  /** Inserting an element the head precedes keeps the head below everything. */
  lemma HeadBelowInsert(h: string, x: string, tail: seq<string>)
    requires StrLt(h, x)
    requires forall k :: 0 <= k < |tail| ==> StrLt(h, tail[k])
    ensures forall k :: 0 <= k < |Insert(x, tail)| ==> StrLt(h, Insert(x, tail)[k])
  {
    var rest := Insert(x, tail);
    forall k | 0 <= k < |rest| ensures StrLt(h, rest[k]) {
      assert rest[k] in multiset(rest);
      if rest[k] != x {
        assert rest[k] in multiset(tail);
        var m :| 0 <= m < |tail| && tail[m] == rest[k];
      }
    }
  }

  lemma {:induction false} InsertSorted(x: string, xs: seq<string>)
    requires StrictlySorted(xs) && x !in xs
    ensures StrictlySorted(Insert(x, xs))
  {
    if xs != [] {
      var h := xs[0];
      SortedTail(xs);
      HeadBelowTail(xs);
      if !StrLt(h, x) {
        assert x != h;
        StrLtTotal(x, h);
        forall k | 0 <= k < |xs| ensures StrLt(x, xs[k]) {
          if k > 0 {
            assert xs[k] == xs[1..][k - 1];
            StrLtTransitive(x, h, xs[k]);
          }
        }
        PrependSorted(x, xs);
      } else {
        assert x !in xs[1..] by {
          forall k | 0 <= k < |xs| - 1 ensures xs[1..][k] != x { assert xs[1..][k] == xs[k + 1]; }
        }
        InsertSorted(x, xs[1..]);
        HeadBelowInsert(h, x, xs[1..]);
        PrependSorted(h, Insert(x, xs[1..]));
      }
    }
  }

  /** Sorting a duplicate-free list yields a strictly increasing one. */
  lemma {:induction false} SortStringsSorted(xs: seq<string>)
    requires Distinct(xs)
    ensures StrictlySorted(SortStrings(xs))
  {
    if xs != [] {
      assert Distinct(xs[1..]) by {
        forall i, j | 0 <= i < j < |xs| - 1 ensures xs[1..][i] != xs[1..][j] {
          assert xs[1..][i] == xs[i + 1] && xs[1..][j] == xs[j + 1];
        }
      }
      SortStringsSorted(xs[1..]);
      assert xs[0] !in xs[1..] by {
        forall k | 0 <= k < |xs| - 1 ensures xs[1..][k] != xs[0] { assert xs[1..][k] == xs[k + 1]; }
      }
      assert xs[0] !in multiset(SortStrings(xs[1..]));
      InsertSorted(xs[0], SortStrings(xs[1..]));
    }
  }

  function SpeciesOf(a: SampleAnimal): string { a.species }
  function StatusOf(a: SampleAnimal): string { a.status }

  function Project(xs: seq<SampleAnimal>, f: SampleAnimal -> string): (r: seq<string>)
    ensures |r| == |xs|
    ensures forall i :: 0 <= i < |xs| ==> r[i] == f(xs[i])
  {
    if xs == [] then [] else [f(xs[0])] + Project(xs[1..], f)
  }

  /** `Array.from(new Set(xs.map(f))).sort(localeCompare)`. */
  function Options(xs: seq<SampleAnimal>, f: SampleAnimal -> string): seq<string> {
    SortStrings(Dedupe(Project(xs, f)))
  }

  /** The options are the distinct field values, each once, in increasing order. */
  lemma OptionsShape(xs: seq<SampleAnimal>, f: SampleAnimal -> string)
    ensures StrictlySorted(Options(xs, f)) && Distinct(Options(xs, f))
    ensures forall v :: v in Options(xs, f) <==> exists a :: a in xs && f(a) == v
  {
    var p := Project(xs, f);
    SortStringsSorted(Dedupe(p));
    var r := Options(xs, f);
    forall i, j | 0 <= i < j < |r| ensures r[i] != r[j] {
      StrLtIrreflexive(r[i]);
    }
    forall v ensures v in r <==> exists a :: a in xs && f(a) == v {
      assert v in r <==> v in multiset(Dedupe(p));
      if v in p {
        var i :| 0 <= i < |p| && p[i] == v;
        assert xs[i] in xs && f(xs[i]) == v;
      }
      if a :| a in xs && f(a) == v {
        var i :| 0 <= i < |xs| && xs[i] == a;
        assert p[i] == v;
      }
    }
  }

  /** The request's filters: `searchParams.get(k) || undefined`. */
  datatype Filters = Filters(species: Option<string>, status: Option<string>)

  function Param(v: Option<string>): (r: Option<string>)
    ensures r.None? <==> v.None? || v.value == ""
    ensures r.Some? ==> r == v
  {
    if v.None? || v.value == "" then None else v
  }

  function FiltersOf(species: Option<string>, status: Option<string>): Filters {
    Filters(Param(species), Param(status))
  }

  /** Species compares case-insensitively, status exactly; an absent filter passes all. */
  predicate Keep(f: Filters, a: SampleAnimal) {
    (f.species.None? || Lower(a.species) == Lower(f.species.value))
    && (f.status.None? || a.status == f.status.value)
  }

  datatype SamplePage = SamplePage(
    animals: seq<SampleAnimal>,
    filters: Filters,
    speciesOptions: seq<string>,
    statusOptions: seq<string>)

  /** `load` of the sample page. */
  function Load(species: Option<string>, status: Option<string>): (r: SamplePage)
    ensures IsSubsequence(r.animals, SampleAnimals)
    ensures r.filters.species.None? <==> species.None? || species.value == ""
    ensures r.filters.status.None? <==> status.None? || status.value == ""
  {
    var f := FiltersOf(species, status);
    SamplePage(
      Filter(SampleAnimals, a => Keep(f, a)),
      f,
      Options(SampleAnimals, SpeciesOf),
      Options(SampleAnimals, StatusOf))
  }

  /** An animal is shown iff it is a sample animal and passes both filters. */
  lemma LoadShows(species: Option<string>, status: Option<string>, a: SampleAnimal)
    ensures a in Load(species, status).animals <==>
      a in SampleAnimals
      && (species.None? || species.value == "" || Lower(a.species) == Lower(species.value))
      && (status.None? || status.value == "" || a.status == status.value)
  {
  }

  /** Filtering with a predicate that holds everywhere keeps the whole list. */
  lemma {:induction false} FilterAll(xs: seq<SampleAnimal>, p: SampleAnimal -> bool)
    requires forall a :: a in xs ==> p(a)
    ensures Filter(xs, p) == xs
  {
    if xs != [] {
      assert forall a :: a in xs[1..] ==> a in xs;
      FilterAll(xs[1..], p);
      assert xs == [xs[0]] + xs[1..];
    }
  }

  /** Empty or missing parameters filter nothing out. */
  lemma NoParamsShowsAll(species: Option<string>, status: Option<string>)
    requires species.None? || species.value == ""
    requires status.None? || status.value == ""
    ensures Load(species, status).animals == SampleAnimals
  {
    var f := FiltersOf(species, status);
    assert f == Filters(None, None);
    FilterAll(SampleAnimals, a => Keep(f, a));
    assert Load(species, status).animals == Filter(SampleAnimals, a => Keep(f, a));
  }

  /** The species filter ignores case: "cat" and "CAT" select the same animals. */
  lemma SpeciesIgnoresCase(s: string, t: string, status: Option<string>)
    requires Lower(s) == Lower(t)
    ensures Load(Some(s), status).animals == Load(Some(t), status).animals
  {
    var f := FiltersOf(Some(s), status);
    var g := FiltersOf(Some(t), status);
    assert |s| == |Lower(s)| && |t| == |Lower(t)|;
    FilterSame(SampleAnimals, a => Keep(f, a), a => Keep(g, a));
  }

  lemma {:induction false} FilterSame(xs: seq<SampleAnimal>, p: SampleAnimal -> bool, q: SampleAnimal -> bool)
    requires forall a :: a in xs ==> p(a) == q(a)
    ensures Filter(xs, p) == Filter(xs, q)
  {
    if xs != [] {
      assert forall a :: a in xs[1..] ==> a in xs;
      FilterSame(xs[1..], p, q);
    }
  }
}

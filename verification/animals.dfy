/** Public animal queries (src/lib/server/animals.ts): the paged listing of
    one rescue's active animals with optional filters, and the single-animal
    lookup. The store's ORDER BY is taken as the order of the input table. */
module Animals {
  import opened Wrappers
  import opened Strings
  import opened Seqs
  import opened Rows

  const DefaultPageSize: int := 9

  /** `pageSize = options?.pageSize ?? 9`, `page = Math.max(1, options?.page ?? 1)`,
      `offset = (page - 1) * pageSize`. */
  function PageParams(page: Option<int>, pageSize: Option<int>): (r: (int, int, int))
    ensures r.0 >= 1
    ensures page.None? ==> r.0 == 1
    ensures pageSize.None? ==> r.1 == DefaultPageSize
    ensures pageSize.Some? ==> r.1 == pageSize.value
    ensures r.2 == (r.0 - 1) * r.1
    ensures r.1 >= 0 ==> r.2 >= 0
  {
    var size := pageSize.GetOr(DefaultPageSize);
    var p := page.GetOr(1);
    var pg := if p < 1 then 1 else p;
    (pg, size, (pg - 1) * size)
  }

  /** `.range(from, to)`: the rows at positions from..to inclusive that exist. */
  function Range<T>(rows: seq<T>, from: int, to: int): (r: seq<T>)
    ensures 0 <= from ==> |r| <= (if to - from + 1 < 0 then 0 else to - from + 1)
  {
    if from < 0 || from > |rows| || to < from then []
    else rows[from..if to + 1 < |rows| then to + 1 else |rows|]
  }

  /** `ilike` without wildcards: equality ignoring ASCII case. */
  predicate ILike(value: string, pattern: string) { Lower(value) == Lower(pattern) }

  predicate GivenText(v: Option<string>) { v.Some? && v.value != [] }

  /** The listing's filters: the rescue's active rows, then species and status when supplied. */
  predicate Matches(a: Animal, rescueId: string, species: Option<string>, status: Option<string>) {
    && a.rescueId == rescueId
    && a.isActive
    && (GivenText(species) ==> ILike(a.species, species.value))
    && (GivenText(status) ==> a.status == status.value)
  }

  function Matching(table: seq<Animal>, rescueId: string, species: Option<string>, status: Option<string>)
    : (r: seq<Animal>)
    ensures forall k :: 0 <= k < |r| ==> Matches(r[k], rescueId, species, status)
    ensures forall a :: a in table && Matches(a, rescueId, species, status) ==> a in r
    ensures IsSubsequence(r, table)
  {
    Filter(table, (a: Animal) => Matches(a, rescueId, species, status))
  }

  /** `listPublicAnimals`: one page of the matching rows and the exact count of all of them. */
  function ListPublicAnimals(table: seq<Animal>, rescueId: string, species: Option<string>, status: Option<string>,
                             page: Option<int>, pageSize: Option<int>): (r: (seq<Animal>, nat))
    ensures r.1 == |Matching(table, rescueId, species, status)|
    ensures forall k :: 0 <= k < |r.0| ==> r.0[k].rescueId == rescueId && r.0[k].isActive
    ensures pageSize.Some? && pageSize.value >= 0 ==> |r.0| <= pageSize.value
    ensures pageSize.None? ==> |r.0| <= DefaultPageSize
    ensures var (pg, size, _) := PageParams(page, pageSize);
      size >= 1 ==> r.0 == PageOf(Matching(table, rescueId, species, status), pg, size)
  {
    var (pg, size, offset) := PageParams(page, pageSize);
    var rows := Matching(table, rescueId, species, status);
    (Range(rows, offset, offset + size - 1), |rows|)
  }

  /** Page p (from 1) of `rows` at `size` rows per page. */
  function PageOf<T>(rows: seq<T>, p: int, size: int): seq<T>
    requires p >= 1 && size >= 1
  {
    Range(rows, (p - 1) * size, (p - 1) * size + size - 1)
  }

  /** A page holds exactly `size` rows when enough rows remain, and the rest otherwise. */
  lemma PageSize<T>(rows: seq<T>, p: int, size: int)
    requires p >= 1 && size >= 1
    ensures var off := (p - 1) * size;
      |PageOf(rows, p, size)| == if off >= |rows| then 0 else if off + size <= |rows| then size else |rows| - off
  {
  }

  /** Page p as a slice, given its offset. */
  lemma PageSlice<T>(rows: seq<T>, p: int, size: int, off: int)
    requires p >= 1 && size >= 1 && off == (p - 1) * size
    ensures PageOf(rows, p, size) == if off >= |rows| then [] else rows[off..if off + size < |rows| then off + size else |rows|]
  {
    assert off >= 0;
  }

  /** Pages 1..n laid end to end are the first n·size rows: consecutive pages
      are adjacent and never overlap. */
  lemma {:induction false} PagesTile<T>(rows: seq<T>, n: nat, size: int)
    requires size >= 1
    ensures Pages(rows, n, size) == rows[..if n * size < |rows| then n * size else |rows|]
  {
    if n > 0 {
      var off := (n - 1) * size;
      assert n * size == off + size;
      PagesTile(rows, n - 1, size);
      PageSlice(rows, n, size, off);
      if off < |rows| {
        var hi := if off + size < |rows| then off + size else |rows|;
        assert rows[..off] + rows[off..hi] == rows[..hi];
      }
    }
  }

  /** Pages 1..n concatenated. */
  function Pages<T>(rows: seq<T>, n: nat, size: int): seq<T>
    requires size >= 1
  {
    if n == 0 then [] else Pages(rows, n - 1, size) + PageOf(rows, n, size)
  }

  /** What `.maybeSingle()` makes of a result set. */
  datatype Single<T> = Found(row: T) | NoRow | TooManyRows

  function MaybeSingle<T>(rows: seq<T>): (r: Single<T>)
    ensures r.Found? ==> |rows| == 1 && r.row == rows[0]
    ensures r.NoRow? <==> rows == []
  {
    if |rows| == 0 then NoRow else if |rows| == 1 then Found(rows[0]) else TooManyRows
  }

  /** `getPublicAnimalById`: the active row with that id, if there is exactly one. */
  function GetPublicAnimalById(table: seq<Animal>, id: string): (r: Single<Animal>)
    ensures r.Found? ==> r.row.isActive && r.row.id == id && r.row in table
    ensures r.NoRow? <==> forall a :: a in table && a.id == id ==> !a.isActive
  {
    MaybeSingle(Filter(table, (a: Animal) => a.id == id && a.isActive))
  }
}

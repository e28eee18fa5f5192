/** The public rescue directory (src/routes/rescues/+page.server.ts): the
    rescues and, per rescue, how many of its animals are listed. */
module Directory {
  import opened Wrappers
  import opened Seqs
  import opened Rows

  /** Reference definition: the listed rows of rescue r. */
  function CountOf(rows: seq<Animal>, r: string): (n: nat)
    ensures n <= |rows|
  {
    if rows == [] then 0
    else CountOf(rows[..|rows| - 1], r) + (if rows[|rows| - 1].rescueId == r && Listed(rows[|rows| - 1]) then 1 else 0)
  }

  /** The `forEach` that builds `counts`: inactive rows and rows not available
      or on hold are skipped; a rescue gets a key on its first counted row. */
  method Counts(rows: seq<Animal>) returns (counts: map<string, nat>)
    ensures forall r :: r in counts <==> CountOf(rows, r) > 0
    ensures forall r :: r in counts ==> counts[r] == CountOf(rows, r)
  {
    counts := map[];
    var i := 0;
    while i < |rows|
      invariant 0 <= i <= |rows|
      invariant forall r :: r in counts <==> CountOf(rows[..i], r) > 0
      invariant forall r :: r in counts ==> counts[r] == CountOf(rows[..i], r)
    {
      var row := rows[i];
      CountStep(rows, i);
      if Listed(row) {
        var prev := if row.rescueId in counts then counts[row.rescueId] else 0;
        counts := counts[row.rescueId := prev + 1];
      }
      i := i + 1;
    }
    assert rows[..|rows|] == rows;
  }

  lemma CountStep(rows: seq<Animal>, i: int)
    requires 0 <= i < |rows|
    ensures forall r :: CountOf(rows[..i + 1], r) == CountOf(rows[..i], r) + (if rows[i].rescueId == r && Listed(rows[i]) then 1 else 0)
  {
    assert rows[..i + 1][..i] == rows[..i];
  }

  /** Total over a list of distinct rescue ids. */
  function SumCounts(rows: seq<Animal>, ids: seq<string>): nat {
    if ids == [] then 0 else CountOf(rows, ids[0]) + SumCounts(rows, ids[1..])
  }

  /** The listed rows whose rescue is one of ids. */
  function CountIn(rows: seq<Animal>, ids: seq<string>): (n: nat)
    ensures n <= |rows|
  {
    if rows == [] then 0
    else CountIn(rows[..|rows| - 1], ids) + (if rows[|rows| - 1].rescueId in ids && Listed(rows[|rows| - 1]) then 1 else 0)
  }

  lemma {:induction false} SumCountsSnoc(rows: seq<Animal>, x: Animal, ids: seq<string>)
    requires Distinct(ids)
    ensures SumCounts(rows + [x], ids) == SumCounts(rows, ids) + (if x.rescueId in ids && Listed(x) then 1 else 0)
  {
    assert (rows + [x])[..|rows|] == rows;
    if ids != [] {
      assert Distinct(ids[1..]) by {
        forall i, j | 0 <= i < j < |ids| - 1 ensures ids[1..][i] != ids[1..][j] {
          assert ids[1..][i] == ids[i + 1] && ids[1..][j] == ids[j + 1];
        }
      }
      SumCountsSnoc(rows, x, ids[1..]);
      if x.rescueId == ids[0] {
        assert x.rescueId !in ids[1..] by {
          forall i | 0 <= i < |ids| - 1 ensures ids[1..][i] != ids[0] { assert ids[1..][i] == ids[i + 1]; }
        }
      }
      assert x.rescueId in ids <==> x.rescueId == ids[0] || x.rescueId in ids[1..] by {
        assert ids == [ids[0]] + ids[1..];
      }
    }
  }

  /** Summed over distinct rescues, the counts add up to the listed rows of
      those rescues, and so never exceed the number of rows. */
  lemma {:induction false} SumCountsBounded(rows: seq<Animal>, ids: seq<string>)
    requires Distinct(ids)
    ensures SumCounts(rows, ids) == CountIn(rows, ids)
    ensures SumCounts(rows, ids) <= |rows|
  {
    if rows != [] {
      var init := rows[..|rows| - 1];
      SumCountsBounded(init, ids);
      SumCountsSnoc(init, rows[|rows| - 1], ids);
      assert init + [rows[|rows| - 1]] == rows;
    } else {
      SumCountsEmpty(ids);
    }
  }

  lemma {:induction false} SumCountsEmpty(ids: seq<string>)
    ensures SumCounts([], ids) == 0
  {
    if ids != [] {
      SumCountsEmpty(ids[1..]);
    }
  }

  /** A rescue row as the directory selects it. */
  datatype RescueRow = RescueRow(id: string, name: string, slug: string, missionStatement: string)

  /** `load`: a rescue query error yields no rescues and no counts; an animal
      query error yields the rescues with no counts. */
  method Load(rescues: Option<seq<RescueRow>>, animals: Option<seq<Animal>>)
    returns (list: seq<RescueRow>, counts: map<string, nat>)
    ensures rescues.None? ==> list == [] && counts == map[]
    ensures rescues.Some? ==> list == rescues.value
    ensures animals.None? ==> counts == map[]
    ensures rescues.Some? && animals.Some? ==>
      forall r :: (r in counts <==> CountOf(animals.value, r) > 0) && (r in counts ==> counts[r] == CountOf(animals.value, r))
  {
    if rescues.None? {
      return [], map[];
    }
    list := rescues.value;
    if animals.None? {
      counts := map[];
    } else {
      counts := Counts(animals.value);
    }
  }
}

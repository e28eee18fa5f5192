/** The public pets listing (src/routes/pets/+page.server.ts): listed animals,
    newest first, each with its thumbnail. */
module Pets {
  import opened Wrappers
  import opened Seqs
  import opened Sorting
  import opened Rows

  /** A listing row: the animal row, whose photos `.sort` has reordered in
      place, plus `thumb`. */
  datatype PetCard = PetCard(animal: Animal, thumb: string)

  /** The row as the listing returns it: `{...row}` shares the photo array
      that `.sort` reorders, so only the photo order differs from the table. */
  function Shown(a: Animal): Animal { a.(photos := SortPhotos(a.photos)) }

  /** Every column but the photos is the table's; the photos are the same
      multiset, sorted by sort order; the thumbnail is the first of them. */
  lemma ShownRow(a: Animal)
    ensures Shown(a).(photos := a.photos) == a
    ensures Shown(a).photos.Some? <==> a.photos.Some?
    ensures a.photos.Some? ==>
      multiset(Shown(a).photos.value) == multiset(a.photos.value) && SortedBy(Shown(a).photos.value, PhotoKey)
    ensures Thumb(a.photos) == FirstImage(Shown(a).photos)
  {
    ThumbIsFirstSorted(a.photos);
  }

  /** `.order('created_at', { ascending: false })`, as a sort key. */
  function NewestFirst(a: Animal): int { -a.createdAt }

  /** The query: active rows with status available or hold, newest first. */
  function PetsQuery(table: seq<Animal>): (r: seq<Animal>)
    ensures forall k :: 0 <= k < |r| ==> Listed(r[k])
    ensures multiset(r) == multiset(Filter(table, Listed))
    ensures forall i, j :: 0 <= i < j < |r| ==> r[i].createdAt >= r[j].createdAt
  {
    var rows := SortBy(Filter(table, Listed), NewestFirst);
    assert forall k :: 0 <= k < |rows| ==> rows[k] in multiset(Filter(table, Listed));
    assert forall i, j :: 0 <= i < j < |rows| ==> NewestFirst(rows[i]) <= NewestFirst(rows[j]);
    rows
  }

  function Cards(rows: seq<Animal>): (r: seq<PetCard>)
    ensures |r| == |rows|
    ensures forall k :: 0 <= k < |rows| ==> r[k] == PetCard(Shown(rows[k]), Thumb(rows[k].photos))
  {
    if rows == [] then [] else [PetCard(Shown(rows[0]), Thumb(rows[0].photos))] + Cards(rows[1..])
  }

  /** `load`: a query error yields no animals; every card's photos are
      sorted and its thumbnail is the first of them. */
  function Load(table: seq<Animal>, queryError: bool): (r: seq<PetCard>)
    ensures queryError ==> r == []
    ensures forall k :: 0 <= k < |r| ==> Listed(r[k].animal) && r[k].thumb == FirstImage(r[k].animal.photos)
    ensures forall k :: 0 <= k < |r| && r[k].animal.photos.Some? ==> SortedBy(r[k].animal.photos.value, PhotoKey)
    ensures forall i, j :: 0 <= i < j < |r| ==> r[i].animal.createdAt >= r[j].animal.createdAt
  {
    if queryError then []
    else
      var rows := PetsQuery(table);
      var cards := Cards(rows);
      forall k | 0 <= k < |cards| ensures cards[k].thumb == FirstImage(cards[k].animal.photos) {
        ThumbIsFirstSorted(rows[k].photos);
      }
      cards
  }

  /** Every listed animal appears, its photos sorted; nothing else does. */
  lemma LoadIsListedRows(table: seq<Animal>)
    ensures forall a :: a in table && Listed(a) ==>
      exists k :: 0 <= k < |Load(table, false)| && Load(table, false)[k].animal == Shown(a)
    ensures forall k :: 0 <= k < |Load(table, false)| ==>
      exists a :: a in table && Listed(a) && Load(table, false)[k].animal == Shown(a)
  {
    var rows := PetsQuery(table);
    var cards := Load(table, false);
    forall a | a in table && Listed(a) ensures exists k :: 0 <= k < |cards| && cards[k].animal == Shown(a) {
      assert a in multiset(rows);
      var k :| 0 <= k < |rows| && rows[k] == a;
      assert cards[k].animal == Shown(a);
    }
    forall k | 0 <= k < |cards| ensures exists a :: a in table && Listed(a) && cards[k].animal == Shown(a) {
      assert rows[k] in multiset(rows);
      assert cards[k].animal == Shown(rows[k]);
    }
  }
}

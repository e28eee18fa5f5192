/** The animal and photo rows the public pages read, and the thumbnail rule
    shared by the pets listing (src/routes/pets/+page.server.ts) and the
    favourites preview (src/routes/api/favorites/preview/+server.ts). */
module Rows {
  import opened Wrappers
  import opened Sorting

  /** An `animal_photos` row; a null `sort_order` compares as 0. */
  datatype Photo = Photo(imageUrl: Option<string>, sortOrder: Option<int>)

  function PhotoKey(p: Photo): int { p.sortOrder.GetOr(0) }

  /** An `animals` row with its embedded photos (`None` when the embedding is
      null) and the embedded rescue, passed through unread. */
  datatype Animal = Animal(
    id: string,
    rescueId: string,
    name: string,
    species: string,
    status: string,
    isActive: bool,
    createdAt: int,
    photos: Option<seq<Photo>>,
    rescue: string)

  /** Shown publicly: active and either available or on hold. */
  predicate Listed(a: Animal) {
    a.isActive && (a.status == "available" || a.status == "hold")
  }

  /** `row.animal_photos?.sort(by sort_order ?? 0)[0]?.image_url ?? ''`. */
  function Thumb(photos: Option<seq<Photo>>): (r: string)
    ensures photos.None? || photos == Some([]) ==> r == ""
  {
    if photos.None? || photos.value == [] then ""
    else SortBy(photos.value, PhotoKey)[0].imageUrl.GetOr("")
  }

  /** `row.animal_photos?.sort(by sort_order ?? 0)`: `sort` reorders the
      embedded array in place and returns it, so the row owning the array
      carries its photos in this order afterwards. */
  function SortPhotos(photos: Option<seq<Photo>>): (r: Option<seq<Photo>>)
    ensures r.None? <==> photos.None?
    ensures photos.Some? ==> multiset(r.value) == multiset(photos.value) && SortedBy(r.value, PhotoKey)
  {
    if photos.None? then None else Some(SortBy(photos.value, PhotoKey))
  }

  /** `[0]?.image_url ?? ''` of a photo list: the first image, or "". */
  function FirstImage(photos: Option<seq<Photo>>): string {
    if photos.None? || photos.value == [] then "" else photos.value[0].imageUrl.GetOr("")
  }

  /** The thumbnail is the first image of the photos once they are sorted. */
  lemma ThumbIsFirstSorted(photos: Option<seq<Photo>>)
    ensures Thumb(photos) == FirstImage(SortPhotos(photos))
  {
  }

  /** The thumbnail is the image of the first photo with the least sort order. */
  lemma ThumbIsFirstMin(ps: seq<Photo>)
    requires ps != []
    ensures Thumb(Some(ps)) == ps[FirstMin(ps, PhotoKey)].imageUrl.GetOr("")
    ensures forall i :: 0 <= i < |ps| ==> PhotoKey(ps[FirstMin(ps, PhotoKey)]) <= PhotoKey(ps[i])
  {
    SortHeadIsFirstMin(ps, PhotoKey);
  }
}

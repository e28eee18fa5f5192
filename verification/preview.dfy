/** The favourites preview (src/routes/api/favorites/preview/+server.ts):
    the saved animal and rescue ids are normalised, looked up, and shown as
    cards with a thumbnail or avatar. */
module Preview {
  import opened Wrappers
  import opened Js
  import opened Seqs
  import opened Rows
  import opened Shortlists

  /** A `public_rescues` row. Null image URLs are None. */
  datatype PublicRescue = PublicRescue(
    id: string,
    name: string,
    slug: string,
    locationText: string,
    tagline: string,
    profileImageUrl: Option<string>,
    logoUrl: Option<string>,
    verificationStatus: string)

  datatype AnimalCard = AnimalCard(id: string, name: string, species: string, status: string, thumb: string, rescue: string)

  datatype RescueCard = RescueCard(
    id: string,
    name: string,
    slug: string,
    tagline: string,
    locationText: string,
    avatar: Option<string>,
    verificationStatus: string)

  datatype PreviewResponse =
    | Cards(animals: seq<AnimalCard>, rescues: seq<RescueCard>)
    | PreviewThrew   // the body was `null`: reading a field throws

  /** `profile_image_url ?? logo_url ?? null`. */
  function Avatar(profile: Option<string>, logo: Option<string>): (r: Option<string>)
    ensures profile.Some? ==> r == profile
    ensures profile.None? ==> r == logo
  {
    if profile.Some? then profile else logo
  }

  function AnimalCardOf(row: Animal): AnimalCard {
    AnimalCard(row.id, row.name, row.species, row.status, Thumb(row.photos), row.rescue)
  }

  function RescueCardOf(row: PublicRescue): RescueCard {
    RescueCard(row.id, row.name, row.slug, row.tagline, row.locationText,
      Avatar(row.profileImageUrl, row.logoUrl), row.verificationStatus)
  }

  function AnimalCards(rows: seq<Animal>): (r: seq<AnimalCard>)
    ensures |r| == |rows|
    ensures forall k :: 0 <= k < |rows| ==> r[k] == AnimalCardOf(rows[k])
  {
    if rows == [] then [] else [AnimalCardOf(rows[0])] + AnimalCards(rows[1..])
  }

  function RescueCards(rows: seq<PublicRescue>): (r: seq<RescueCard>)
    ensures |r| == |rows|
    ensures forall k :: 0 <= k < |rows| ==> r[k] == RescueCardOf(rows[k])
  {
    if rows == [] then [] else [RescueCardOf(rows[0])] + RescueCards(rows[1..])
  }

  /** The animal query: requested ids that are active and available or on hold. */
  function AnimalQuery(table: seq<Animal>, ids: seq<string>): (r: seq<Animal>)
    ensures forall k :: 0 <= k < |r| ==> r[k].id in ids && Listed(r[k])
    ensures forall a :: a in table && a.id in ids && Listed(a) ==> a in r
  {
    Filter(table, (a: Animal) => a.id in ids && Listed(a))
  }

  /** The rescue query: exactly the requested rows. */
  function RescueQuery(table: seq<PublicRescue>, ids: seq<string>): (r: seq<PublicRescue>)
    ensures forall k :: 0 <= k < |r| ==> r[k].id in ids
    ensures forall p :: p in table && p.id in ids ==> p in r
  {
    Filter(table, (p: PublicRescue) => p.id in ids)
  }

  /** The POST handler. A failed query contributes no cards; `queries` counts
      the queries issued. */
  function HandlePreview(payload: Json, animalTable: seq<Animal>, rescueTable: seq<PublicRescue>,
                         animalError: bool, rescueError: bool): (out: (PreviewResponse, nat))
    ensures payload.JNull? <==> out.0.PreviewThrew?
    ensures out.1 <= 2
  {
    if payload.JNull? then (PreviewThrew, 0)
    else
      Respond(PayloadIds(payload, "animals").value, PayloadIds(payload, "rescues").value,
        animalTable, rescueTable, animalError, rescueError)
  }

  /** The handler once the ids are normalised. */
  function Respond(animalIds: seq<string>, rescueIds: seq<string>, animalTable: seq<Animal>,
                   rescueTable: seq<PublicRescue>, animalError: bool, rescueError: bool)
    : (out: (PreviewResponse, nat))
    ensures out.0.Cards? && out.1 <= 2
    ensures animalIds == [] && rescueIds == [] ==> out == (Cards([], []), 0)
    ensures |out.0.animals| <= |animalTable| && |out.0.rescues| <= |rescueTable|
  {
    if animalIds == [] && rescueIds == [] then (Cards([], []), 0)
    else
      var animals := if animalIds == [] || animalError then [] else AnimalQuery(animalTable, animalIds);
      var rescues := if rescueIds == [] || rescueError then [] else RescueQuery(rescueTable, rescueIds);
      var queries := (if animalIds == [] then 0 else 1) + (if rescueIds == [] then 0 else 1);
      (Cards(AnimalCards(animals), RescueCards(rescues)), queries)
  }

  /** Every animal card comes from a listed row whose id was requested. */
  lemma AnimalCardsFromRequestedRows(animalIds: seq<string>, rescueIds: seq<string>, animalTable: seq<Animal>,
                                     rescueTable: seq<PublicRescue>, animalError: bool, rescueError: bool)
    ensures var r := Respond(animalIds, rescueIds, animalTable, rescueTable, animalError, rescueError).0;
      forall k :: 0 <= k < |r.animals| ==>
        exists a :: a in animalTable && Listed(a) && a.id in animalIds && r.animals[k] == AnimalCardOf(a)
  {
    var r := Respond(animalIds, rescueIds, animalTable, rescueTable, animalError, rescueError).0;
    var animals := if animalIds == [] || animalError then [] else AnimalQuery(animalTable, animalIds);
    assert r.animals == AnimalCards(animals);
    forall k | 0 <= k < |r.animals|
      ensures exists a :: a in animalTable && Listed(a) && a.id in animalIds && r.animals[k] == AnimalCardOf(a)
    {
      var a := animals[k];
      assert a in animalTable && Listed(a) && a.id in animalIds;
    }
  }

  /** Every rescue card comes from a requested rescue. */
  lemma RescueCardsFromRequestedRows(animalIds: seq<string>, rescueIds: seq<string>, animalTable: seq<Animal>,
                                     rescueTable: seq<PublicRescue>, animalError: bool, rescueError: bool)
    ensures var r := Respond(animalIds, rescueIds, animalTable, rescueTable, animalError, rescueError).0;
      forall k :: 0 <= k < |r.rescues| ==>
        exists p :: p in rescueTable && p.id in rescueIds && r.rescues[k] == RescueCardOf(p)
  {
    var r := Respond(animalIds, rescueIds, animalTable, rescueTable, animalError, rescueError).0;
    var rescues := if rescueIds == [] || rescueError then [] else RescueQuery(rescueTable, rescueIds);
    assert r.rescues == RescueCards(rescues);
    forall k | 0 <= k < |r.rescues|
      ensures exists p :: p in rescueTable && p.id in rescueIds && r.rescues[k] == RescueCardOf(p)
    {
      var p := rescues[k];
      assert p in rescueTable && p.id in rescueIds;
    }
  }

  /** Every requested, listed animal gets a card when its query succeeds. */
  lemma RequestedListedAnimalShown(animalIds: seq<string>, rescueIds: seq<string>, animalTable: seq<Animal>,
                                   rescueTable: seq<PublicRescue>, rescueError: bool, a: Animal)
    requires a in animalTable && Listed(a) && a.id in animalIds
    ensures AnimalCardOf(a) in Respond(animalIds, rescueIds, animalTable, rescueTable, false, rescueError).0.animals
  {
    var animals := AnimalQuery(animalTable, animalIds);
    var k :| 0 <= k < |animals| && animals[k] == a;
    assert AnimalCards(animals)[k] == AnimalCardOf(a);
  }

  /** Every requested rescue gets a card when its query succeeds. */
  lemma RequestedRescueShown(animalIds: seq<string>, rescueIds: seq<string>, animalTable: seq<Animal>,
                             rescueTable: seq<PublicRescue>, animalError: bool, p: PublicRescue)
    requires p in rescueTable && p.id in rescueIds
    ensures RescueCardOf(p) in Respond(animalIds, rescueIds, animalTable, rescueTable, animalError, false).0.rescues
  {
    var rescues := RescueQuery(rescueTable, rescueIds);
    var k :| 0 <= k < |rescues| && rescues[k] == p;
    assert RescueCards(rescues)[k] == RescueCardOf(p);
  }

  /** With no usable ids the answer is two empty lists and no query runs. */
  lemma EmptyIdsNoQuery(payload: Json)
    requires !payload.JNull?
    requires PayloadIds(payload, "animals") == Some([]) && PayloadIds(payload, "rescues") == Some([])
    ensures forall at, rt, ae, re :: HandlePreview(payload, at, rt, ae, re) == (Cards([], []), 0)
  {
  }
}

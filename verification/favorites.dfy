/** The pure update behind the favourites store (src/lib/utils/favorites.ts):
    `toggleFavorite` adds or removes an id in the animal or rescue list,
    `isFavorite` reads membership. */
module Favorites {
  import opened Seqs

  datatype Kind = Animal | Rescue

  datatype FavoriteState = FavoriteState(animals: seq<string>, rescues: seq<string>)

  function ListOf(state: FavoriteState, kind: Kind): seq<string> {
    if kind == Animal then state.animals else state.rescues
  }

  function WithList(state: FavoriteState, kind: Kind, list: seq<string>): (r: FavoriteState)
    ensures ListOf(r, kind) == list
    ensures kind == Animal ==> r.rescues == state.rescues
    ensures kind == Rescue ==> r.animals == state.animals
  {
    if kind == Animal then state.(animals := list) else state.(rescues := list)
  }

  /** `isFavorite`. */
  predicate IsFavorite(state: FavoriteState, kind: Kind, id: string) {
    id in ListOf(state, kind)
  }

  /** The update `toggleFavorite` applies: a present id is filtered out, an
      absent one is appended and the list passed through `ensureUnique`. */
  function Toggle(state: FavoriteState, kind: Kind, id: string): (r: FavoriteState)
    ensures IsFavorite(r, kind, id) <==> !IsFavorite(state, kind, id)
    ensures kind == Animal ==> r.rescues == state.rescues
    ensures kind == Rescue ==> r.animals == state.animals
    ensures forall other :: other != id ==> (IsFavorite(r, kind, other) <==> IsFavorite(state, kind, other))
  {
    var list := ListOf(state, kind);
    if id in list then WithList(state, kind, Remove(list, id))
    else WithList(state, kind, Dedupe(list + [id]))
  }

  /** Toggling an absent id appends it exactly once, at the end. */
  lemma ToggleAppends(state: FavoriteState, kind: Kind, id: string)
    requires !IsFavorite(state, kind, id)
    ensures ListOf(Toggle(state, kind, id), kind) == Dedupe(ListOf(state, kind)) + [id]
    ensures Distinct(ListOf(state, kind)) ==> ListOf(Toggle(state, kind, id), kind) == ListOf(state, kind) + [id]
  {
    var list := ListOf(state, kind);
    assert (list + [id])[..|list|] == list;
    if Distinct(list) {
      DedupeOfDistinct(list);
    }
  }

  /** Toggling a present id removes every occurrence and keeps the rest in order. */
  lemma ToggleRemoves(state: FavoriteState, kind: Kind, id: string)
    requires IsFavorite(state, kind, id)
    ensures ListOf(Toggle(state, kind, id), kind) == Remove(ListOf(state, kind), id)
  {
  }

  /** Toggling keeps the chosen list duplicate-free. */
  lemma ToggleKeepsDistinct(state: FavoriteState, kind: Kind, id: string)
    requires Distinct(ListOf(state, kind))
    ensures Distinct(ListOf(Toggle(state, kind, id), kind))
  {
    var list := ListOf(state, kind);
    if id in list {
      RemoveDistinct(list, id);
    }
  }

  /** On a duplicate-free list, adding an absent id and toggling it again
      restores the original list. */
  lemma ToggleTwiceAbsent(state: FavoriteState, kind: Kind, id: string)
    requires Distinct(ListOf(state, kind)) && !IsFavorite(state, kind, id)
    ensures Toggle(Toggle(state, kind, id), kind, id) == state
  {
    var list := ListOf(state, kind);
    ToggleAppends(state, kind, id);
    RemoveSnocAbsent(list, id);
  }

  lemma {:induction false} RemoveSnocAbsent(xs: seq<string>, x: string)
    requires x !in xs
    ensures Remove(xs + [x], x) == xs
  {
    if xs == [] {
      assert [] + [x] == [x];
    } else {
      assert (xs + [x])[1..] == xs[1..] + [x];
      RemoveSnocAbsent(xs[1..], x);
      assert xs == [xs[0]] + xs[1..];
    }
  }

  /** Toggling a present id twice restores membership but moves the id to the
      end: ["a", "b"] toggled at "a" twice becomes ["b", "a"]. */
  lemma ToggleTwiceMovesToEnd()
    ensures var s := FavoriteState(["a", "b"], []);
      Toggle(Toggle(s, Animal, "a"), Animal, "a") == FavoriteState(["b", "a"], [])
  {
    var s := FavoriteState(["a", "b"], []);
    assert Remove(["a", "b"], "a") == ["b"] by {
      assert ["a", "b"][1..] == ["b"];
      assert Remove(["b"], "a") == ["b"] by { assert ["b"][1..] == []; }
    }
    var t := Toggle(s, Animal, "a");
    assert t.animals == ["b"];
    assert Dedupe(["b", "a"]) == ["b", "a"] by {
      DedupeOfDistinct(["b", "a"]);
    }
  }
}

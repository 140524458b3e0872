/**
 * The list values behind the watchlist: the `find` that looks an id up, the
 * append that adds a new favourite and the `filter` that removes one. The
 * list is ordered and behaves as a set keyed by `id`.
 */
module Favorites {
  import opened Wrappers
  import opened Media

  ghost predicate HasId(favs: seq<Item>, id: int) {
    exists i :: 0 <= i < |favs| && favs[i].id == id
  }

  /** `favs[i]` is the first entry with this id. */
  ghost predicate FirstWithId(favs: seq<Item>, id: int, i: int) {
    0 <= i < |favs| && favs[i].id == id && forall j :: 0 <= j < i ==> favs[j].id != id
  }

  /** No two entries share an id. */
  ghost predicate UniqueIds(favs: seq<Item>) {
    forall i, j :: 0 <= i < j < |favs| ==> favs[i].id != favs[j].id
  }

  /** `favorites.find(fav => fav.id === id)`: the first entry with that id, if any. */
  function FindById(favs: seq<Item>, id: int): (r: Option<Item>)
    ensures r.Some? <==> HasId(favs, id)
    ensures r.Some? ==> exists i :: FirstWithId(favs, id, i) && favs[i] == r.value
  {
    if favs == [] then None
    else if favs[0].id == id then
      assert FirstWithId(favs, id, 0);
      Some(favs[0])
    else
      var r := FindById(favs[1..], id);
      assert HasId(favs[1..], id) <==> HasId(favs, id) by {
        if HasId(favs, id) {
          var i :| 0 <= i < |favs| && favs[i].id == id;
          assert favs[1..][i - 1].id == id;
        }
      }
      assert r.Some? ==> exists i :: FirstWithId(favs, id, i) && favs[i] == r.value by {
        if r.Some? {
          var i :| FirstWithId(favs[1..], id, i) && favs[1..][i] == r.value;
          assert FirstWithId(favs, id, i + 1);
        }
      }
      r
  }

  /** `addToFavorites`: append the item unless an entry already has its id. */
  function AddFavorite(favs: seq<Item>, item: Item): (r: seq<Item>)
    ensures HasId(favs, item.id) ==> r == favs
    ensures !HasId(favs, item.id) ==> r == favs + [item]
  {
    if FindById(favs, item.id).None? then favs + [item] else favs
  }

  /** `removeFromFavorites`: keep the entries whose id differs, in order. */
  function RemoveFavorite(favs: seq<Item>, id: int): (r: seq<Item>)
    ensures |r| <= |favs|
    ensures forall x :: x in r <==> x in favs && x.id != id
  {
    if favs == [] then []
    else if favs[0].id != id then [favs[0]] + RemoveFavorite(favs[1..], id)
    else RemoveFavorite(favs[1..], id)
  }

  // ------------------------------------------------------------ adding

  /** After an add, some entry carries the item's id. */
  lemma AddMakesPresent(favs: seq<Item>, item: Item)
    ensures HasId(AddFavorite(favs, item), item.id)
  {
    if !HasId(favs, item.id) {
      assert (favs + [item])[|favs|] == item;
    }
  }

  /** Adding the same item twice is the same as adding it once. */
  lemma AddIdempotent(favs: seq<Item>, item: Item)
    ensures AddFavorite(AddFavorite(favs, item), item) == AddFavorite(favs, item)
  {
    AddMakesPresent(favs, item);
  }

  lemma AddPreservesUnique(favs: seq<Item>, item: Item)
    requires UniqueIds(favs)
    ensures UniqueIds(AddFavorite(favs, item))
  {
  }

  lemma HasIdAppend(favs: seq<Item>, item: Item, id: int)
    ensures HasId(favs + [item], id) <==> HasId(favs, id) || item.id == id
  {
    var r := favs + [item];
    if HasId(r, id) && item.id != id {
      var i :| 0 <= i < |r| && r[i].id == id;
      assert r[i] == favs[i];
    }
    if HasId(favs, id) {
      var i :| 0 <= i < |favs| && favs[i].id == id;
      assert r[i] == favs[i];
    }
    if item.id == id {
      assert r[|favs|] == item;
    }
  }

  /**
   * Two items with different ids end up in the list together whichever is
   * added first: the two results hold the same entries.
   */
  lemma AddCommutesAsSet(favs: seq<Item>, a: Item, b: Item)
    requires a.id != b.id
    ensures multiset(AddFavorite(AddFavorite(favs, a), b)) == multiset(AddFavorite(AddFavorite(favs, b), a))
  {
    HasIdAppend(favs, a, b.id);
    HasIdAppend(favs, b, a.id);
  }

  // ---------------------------------------------------------- removing

  /** Removing distributes over concatenation, so it keeps the survivors' relative order. */
  lemma {:induction false} RemoveConcat(a: seq<Item>, b: seq<Item>, id: int)
    ensures RemoveFavorite(a + b, id) == RemoveFavorite(a, id) + RemoveFavorite(b, id)
    decreases |a|
  {
    if a == [] {
      assert a + b == b;
    } else {
      assert (a + b)[0] == a[0];
      assert (a + b)[1..] == a[1..] + b;
      RemoveConcat(a[1..], b, id);
    }
  }

  lemma RemoveSingleton(x: Item, id: int)
    ensures RemoveFavorite([x], id) == if x.id == id then [] else [x]
  {
  }

  /** How many times each entry survives: none with the removed id, all others untouched. */
  lemma {:induction false} RemoveCounts(favs: seq<Item>, id: int, x: Item)
    ensures multiset(RemoveFavorite(favs, id))[x] == if x.id == id then 0 else multiset(favs)[x]
    decreases |favs|
  {
    if favs != [] {
      RemoveCounts(favs[1..], id, x);
      assert favs == [favs[0]] + favs[1..];
    }
  }

  /** Removing an id that no entry carries leaves the list exactly as it was. */
  lemma {:induction false} RemoveAbsentIsNoOp(favs: seq<Item>, id: int)
    requires !HasId(favs, id)
    ensures RemoveFavorite(favs, id) == favs
    decreases |favs|
  {
    if favs != [] {
      assert favs[0].id != id;
      forall i | 0 <= i < |favs[1..]|
        ensures favs[1..][i].id != id
      {
        assert favs[1..][i] == favs[i + 1];
      }
      RemoveAbsentIsNoOp(favs[1..], id);
      assert favs == [favs[0]] + favs[1..];
    }
  }

  /** After a remove no entry carries the id. */
  lemma RemoveMakesAbsent(favs: seq<Item>, id: int)
    ensures !HasId(RemoveFavorite(favs, id), id)
  {
  }

  lemma RemoveIdempotent(favs: seq<Item>, id: int)
    ensures RemoveFavorite(RemoveFavorite(favs, id), id) == RemoveFavorite(favs, id)
  {
  }

  lemma {:induction false} RemovePreservesUnique(favs: seq<Item>, id: int)
    requires UniqueIds(favs)
    ensures UniqueIds(RemoveFavorite(favs, id))
    decreases |favs|
  {
    if favs != [] {
      var tail := favs[1..];
      assert UniqueIds(tail) by {
        forall i, j | 0 <= i < j < |tail|
          ensures tail[i].id != tail[j].id
        {
          assert tail[i] == favs[i + 1] && tail[j] == favs[j + 1];
        }
      }
      RemovePreservesUnique(tail, id);
      var rest := RemoveFavorite(tail, id);
      if favs[0].id != id {
        var r := [favs[0]] + rest;
        forall i, j | 0 <= i < j < |r|
          ensures r[i].id != r[j].id
        {
          if i == 0 {
            assert r[j] == rest[j - 1] && r[j] in tail;
            var k :| 0 <= k < |tail| && tail[k] == r[j];
            assert favs[k + 1] == r[j];
          } else {
            assert r[i] == rest[i - 1] && r[j] == rest[j - 1];
          }
        }
      }
    }
  }

  /** Adding a new item and then removing its id gives back the original list. */
  lemma AddThenRemove(favs: seq<Item>, item: Item)
    requires !HasId(favs, item.id)
    ensures RemoveFavorite(AddFavorite(favs, item), item.id) == favs
  {
    RemoveConcat(favs, [item], item.id);
    RemoveSingleton(item, item.id);
    RemoveAbsentIsNoOp(favs, item.id);
  }
}

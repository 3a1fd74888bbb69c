/**
 * The favorites routes (routes/api/favorites.js): toggling a service in the
 * signed-in user's favorites list, which is changed in place and saved, and
 * listing that list.
 */
module Favorites {
  import opened Wrappers
  import opened Ids

  /** The part of the user document these routes read and write. */
  class UserDoc {
    const id: Id
    var favorites: seq<Id>

    constructor (id: Id, favorites: seq<Id>)
      ensures this.id == id && this.favorites == favorites
    {
      this.id := id;
      this.favorites := favorites;
    }
  }

  /**
   * 400 and 200 of `POST /api/favorites/:serviceId`. `Throws` is the
   * rejection of `unshift` when it cannot cast the id, which the handler
   * does not catch.
   */
  datatype ToggleStatus = InvalidServiceId | Toggled | Throws

  /** `findIndex`: the position of the first occurrence. */
  function FirstIndex(s: seq<Id>, x: Id): (r: Option<nat>)
    ensures r.Some? ==> r.value < |s| && s[r.value] == x && x !in s[..r.value]
    ensures r.None? <==> x !in s
  {
    if s == [] then None
    else if s[0] == x then Some(0)
    else
      var rest := FirstIndex(s[1..], x);
      assert s == [s[0]] + s[1..];
      if rest.Some? then
        assert s[..rest.value + 1] == [s[0]] + s[1..][..rest.value];
        Some(rest.value + 1)
      else None
  }

  /** The list after a toggle: the first occurrence spliced out, or the id put in front. */
  function Toggle(favs: seq<Id>, x: Id): seq<Id> {
    var k := FirstIndex(favs, x);
    if k.Some? then favs[..k.value] + favs[k.value + 1..] else [x] + favs
  }

  /**
   * `POST /api/favorites/:serviceId`: returns the saved list. `findIndex`
   * looks for the first favorite that `equals` the id, and `unshift` stores
   * the id cast to an ObjectId. For an id that casts both name the same
   * stored id, and the request toggles it.
   */
  method ToggleFavorite(user: UserDoc, serviceId: string) returns (status: ToggleStatus, list: seq<Id>)
    modifies user
    ensures !IsValidObjectId(serviceId) ==> status == InvalidServiceId && user.favorites == old(user.favorites)
    ensures IsValidObjectId(serviceId) && CastId(serviceId).Some? ==>
      status == Toggled && user.favorites == Toggle(old(user.favorites), CastId(serviceId).value)
    ensures IsValidObjectId(serviceId) && CastId(serviceId).None? ==>
      var key := EqualsKey(serviceId);
      if key.Some? && key.value in old(user.favorites)
      then status == Toggled && user.favorites == Toggle(old(user.favorites), key.value)
      else status == Throws && user.favorites == old(user.favorites)
    ensures list == user.favorites
  {
    if !IsValidObjectId(serviceId) {
      return InvalidServiceId, user.favorites;
    }
    var key := EqualsKey(serviceId);
    var idx := if key.Some? then FirstIndex(user.favorites, key.value) else None;
    if idx.Some? {
      user.favorites := user.favorites[..idx.value] + user.favorites[idx.value + 1..];
    } else {
      var c := CastId(serviceId);
      if c.None? {
        return Throws, user.favorites;
      }
      user.favorites := [c.value] + user.favorites;
    }
    return Toggled, user.favorites;
  }

  /** `GET /api/favorites`: the stored list as it is. */
  method ListFavorites(user: UserDoc) returns (list: seq<Id>)
    ensures list == user.favorites
  {
    list := user.favorites;
  }

  /**
   * A present id loses its first occurrence, the rest keeping their order;
   * an absent id is put at index 0, followed by the list as it was.
   */
  lemma ToggleShape(favs: seq<Id>, x: Id)
    ensures x in favs ==> exists k :: 0 <= k < |favs| && favs[k] == x && x !in favs[..k]
                                     && Toggle(favs, x) == favs[..k] + favs[k + 1..]
    ensures x !in favs ==> Toggle(favs, x) == [x] + favs && Toggle(favs, x)[0] == x && Toggle(favs, x)[1..] == favs
  {
    var k := FirstIndex(favs, x);
    if k.Some? {
      assert favs[k.value] == x && x !in favs[..k.value];
    }
  }

  /** Every toggle changes the length by exactly one, and no other id's count changes. */
  lemma ToggleCounts(favs: seq<Id>, x: Id)
    ensures |Toggle(favs, x)| == if x in favs then |favs| - 1 else |favs| + 1
    ensures forall y :: y != x ==> multiset(Toggle(favs, x))[y] == multiset(favs)[y]
    ensures multiset(Toggle(favs, x))[x] == if x in favs then multiset(favs)[x] - 1 else multiset(favs)[x] + 1
  {
    var t, k := Toggle(favs, x), FirstIndex(favs, x);
    if k.Some? {
      SpliceCounts(favs, k.value);
      assert x in favs && multiset(t) == multiset(favs) - multiset{x};
      assert multiset(favs)[x] >= 1;
    } else {
      assert t == [x] + favs;
      assert x !in favs && multiset(t) == multiset{x} + multiset(favs);
    }
  }

  /** Splicing out position `i` removes one occurrence of the element there and nothing else. */
  lemma SpliceCounts(s: seq<Id>, i: nat)
    requires i < |s|
    ensures multiset(s[..i] + s[i + 1..]) == multiset(s) - multiset{s[i]}
    ensures |s[..i] + s[i + 1..]| == |s| - 1
  {
    assert s == s[..i] + [s[i]] + s[i + 1..];
    assert multiset(s) == multiset(s[..i]) + multiset{s[i]} + multiset(s[i + 1..]);
  }

  /** Toggling an absent id twice gives back the original list. */
  lemma ToggleTwiceRestores(favs: seq<Id>, x: Id)
    requires x !in favs
    ensures Toggle(Toggle(favs, x), x) == favs
  {
    var t := Toggle(favs, x);
    assert t == [x] + favs;
    assert FirstIndex(t, x) == Some(0);
    assert t[1..] == favs;
  }

  predicate NoDuplicates(s: seq<Id>) {
    forall i, j :: 0 <= i < j < |s| ==> s[i] != s[j]
  }

  /** Toggling alone never creates a duplicate. */
  lemma ToggleKeepsNoDuplicates(favs: seq<Id>, x: Id)
    requires NoDuplicates(favs)
    ensures NoDuplicates(Toggle(favs, x))
  {
    var t := Toggle(favs, x);
    var k := FirstIndex(favs, x);
    if k.Some? {
      var i := k.value;
      forall a, b | 0 <= a < b < |t|
        ensures t[a] != t[b]
      {
        var a' := if a < i then a else a + 1;
        var b' := if b < i then b else b + 1;
        assert t[a] == favs[a'] && t[b] == favs[b'];
      }
    } else {
      forall a, b | 0 <= a < b < |t|
        ensures t[a] != t[b]
      {
        if a == 0 {
          assert t[b] == favs[b - 1];
        } else {
          assert t[a] == favs[a - 1] && t[b] == favs[b - 1];
        }
      }
    }
  }

  /** On a list without duplicates, each toggle flips whether the id is a favorite. */
  lemma ToggleFlips(favs: seq<Id>, x: Id)
    requires NoDuplicates(favs)
    ensures x in Toggle(favs, x) <==> x !in favs
  {
    var t := Toggle(favs, x);
    var k := FirstIndex(favs, x);
    if k.Some? {
      var i := k.value;
      forall m | 0 <= m < |t|
        ensures t[m] != x
      {
        if m < i {
          assert t[m] == favs[..i][m];
        } else {
          assert t[m] == favs[m + 1];
        }
      }
    }
  }

  /** With a duplicate, removing the first occurrence leaves the id a favorite. */
  lemma DuplicateStaysFavorite(x: Id)
    ensures x in [x, x] && x in Toggle([x, x], x)
  {
    assert FirstIndex([x, x], x) == Some(0);
  }
}

/**
 * The restaurant endpoints (app/api/v1/endpoints/restaurants.py): the
 * favorite and visited toggles kept as membership of the user's special
 * lists "Favorites" and "Visited", and the note upsert. Reading one
 * restaurant is `Data.FindRestaurant`.
 *
 * Every endpoint runs for a user that get_current_user has produced, so
 * that user exists.
 */
module RestaurantsEndpoint {
  import opened Models
  import opened InitialSchema
  import opened ListNameIndex
  import opened CascadeDelete
  import opened Store

  /** The user's rows for the restaurant that sit in list l. */
  function RowsIn(saved: map<Id, UserRestaurant>, userId: Id, restaurantId: Id, l: Id): (r: set<Id>)
    ensures r == {} <==> !InList(saved, userId, restaurantId, l)
  {
    var r := set k | k in saved && saved[k].userId == userId && saved[k].restaurantId == restaurantId
                                && saved[k].listId == Some(l);
    assert forall k :: (k in saved && saved[k].userId == userId && saved[k].restaurantId == restaurantId
                        && saved[k].listId == Some(l)) ==> k in r;
    r
  }

  /** The restaurant is in the user's list l. */
  predicate InList(saved: map<Id, UserRestaurant>, userId: Id, restaurantId: Id, l: Id) {
    exists k :: k in saved && saved[k].userId == userId && saved[k].restaurantId == restaurantId
                && saved[k].listId == Some(l)
  }

  /** The save event the toggles record for an "on" toggle. */
  function ToggleEvent(userId: Id, l: Id): SaveEvent {
    SaveEvent(userId, "manual_toggle", "", None, Some(l), Complete, None)
  }

  /** `_get_or_create_special_list`: the user's list of exactly that name,
      created if there is none. Creating it fails when the user already has
      a list whose name differs only in case and the LOWER(name) index is in
      force. */
  method GetOrCreateSpecialList(db: Database, userId: Id, name: string) returns (r: Result<Id>)
    requires db.Valid() && userId in db.users
    modifies db
    ensures db.Valid()
    ensures r.Ok? ==> ListsNamed(db.lists, userId, name) == {r.value}
    ensures ListsNamed(old(db.lists), userId, name) != {} ==> r.Ok? && db.Snapshot() == old(db.Snapshot())
    ensures ListsNamed(old(db.lists), userId, name) == {} ==>
      && (r.Ok? <==> !NameClash(old(db.lists), userId, name, db.schema.nameRule))
      && (r.Ok? ==> r.value !in old(db.lists) &&
                    db.Snapshot() == old(db.Snapshot()).(lists := old(db.lists)[r.value := List(userId, name)]))
      && (r.Err? ==> r.error == IntegrityError && db.Snapshot() == old(db.Snapshot()))
  {
    var named := ListsNamed(db.lists, userId, name);
    if named != {} {
      var l :| l in named;
      forall m | m in named ensures m == l {
        AtMostOneNamed(db.lists, db.schema.nameRule, userId, name, m, l);
      }
      return Ok(l);
    }
    var ok, id := db.InsertList(List(userId, name));
    if !ok {
      return Err(IntegrityError);
    }
    assert ListsNamed(db.lists, userId, name) == {id} by {
      forall m | m in ListsNamed(db.lists, userId, name) ensures m == id { }
    }
    r := Ok(id);
  }

  /** The table without the user's rows of the restaurant in list l. */
  function RemoveFromList(saved: map<Id, UserRestaurant>, userId: Id, restaurantId: Id, l: Id): map<Id, UserRestaurant> {
    map j | j in saved && j !in RowsIn(saved, userId, restaurantId, l) :: saved[j]
  }

  /** The "off" half of a toggle: the user's row of the restaurant in
      list l is deleted, and nothing else changes. */
  method SwitchOff(db: Database, userId: Id, restaurantId: Id, l: Id, k: Id)
    requires db.Valid() && k in RowsIn(db.userRestaurants, userId, restaurantId, l)
    modifies db
    ensures db.Valid()
    ensures db.Snapshot() == old(db.Snapshot()).(userRestaurants :=
      RemoveFromList(old(db.userRestaurants), userId, restaurantId, l))
    ensures !InList(db.userRestaurants, userId, restaurantId, l)
  {
    var rows := RowsIn(db.userRestaurants, userId, restaurantId, l);
    assert rows == {k} by {
      forall m | m in rows ensures m == k { }
    }
    db.DeleteSaved(k);
  }

  /** The "on" half of a toggle: a "manual_toggle" save event aiming at l
      is committed, then a row of the restaurant in l pointing at it. The
      second commit is rejected when the restaurant does not exist or the
      user already holds it in another list or in "Unsorted" (the lookup
      filtered by list, the table is unique on (user, restaurant)); the
      save event stays behind either way. */
  method SwitchOn(db: Database, userId: Id, restaurantId: Id, l: Id) returns (r: Result<bool>, e: Id)
    requires db.Valid() && userId in db.users && l in db.lists
    modifies db
    ensures db.Valid()
    ensures db.users == old(db.users) && db.restaurants == old(db.restaurants)
    ensures db.lists == old(db.lists) && db.notes == old(db.notes)
    ensures e !in old(db.saveEvents) && db.saveEvents == old(db.saveEvents)[e := ToggleEvent(userId, l)]
    ensures r.Ok? <==> restaurantId in db.restaurants && SavedRows(old(db.userRestaurants), userId, restaurantId) == {}
    ensures r.Ok? ==> r == Ok(true) && InList(db.userRestaurants, userId, restaurantId, l)
    ensures r.Ok? ==> AddsOne(old(db.userRestaurants), db.userRestaurants, UserRestaurant(userId, restaurantId, Some(l), e))
    ensures r.Err? ==> r.error == IntegrityError && db.userRestaurants == old(db.userRestaurants)
  {
    var _, id := db.InsertEvent(ToggleEvent(userId, l));
    e := id;
    var row := UserRestaurant(userId, restaurantId, Some(l), e);
    var ok, s := db.InsertSaved(row);
    if !ok {
      return Err(IntegrityError), e;
    }
    assert db.userRestaurants[s] == row;
    r := Ok(true);
  }

  /** The part of a toggle after the special list l is known: an "off"
      toggle when the restaurant is in l, an "on" toggle otherwise. */
  method ToggleIn(db: Database, userId: Id, restaurantId: Id, l: Id) returns (r: Result<bool>, e: Id)
    requires db.Valid() && userId in db.users && l in db.lists
    modifies db
    ensures db.Valid()
    ensures db.users == old(db.users) && db.restaurants == old(db.restaurants)
    ensures db.lists == old(db.lists) && db.notes == old(db.notes)
    ensures r.Ok? ==> r.value == InList(db.userRestaurants, userId, restaurantId, l)
    ensures r.Ok? ==> r.value == !InList(old(db.userRestaurants), userId, restaurantId, l)
    ensures InList(old(db.userRestaurants), userId, restaurantId, l) ==>
      r == Ok(false) &&
      db.Snapshot() == old(db.Snapshot()).(userRestaurants := RemoveFromList(old(db.userRestaurants), userId, restaurantId, l))
    ensures !InList(old(db.userRestaurants), userId, restaurantId, l) ==>
      && e !in old(db.saveEvents) && db.saveEvents == old(db.saveEvents)[e := ToggleEvent(userId, l)]
      && (r.Ok? <==> restaurantId in db.restaurants && SavedRows(old(db.userRestaurants), userId, restaurantId) == {})
      && (r.Ok? ==> r.value)
      && (r.Ok? ==> AddsOne(old(db.userRestaurants), db.userRestaurants, UserRestaurant(userId, restaurantId, Some(l), e)))
    ensures forall k :: k in old(db.userRestaurants) && old(db.userRestaurants)[k].listId != Some(l) ==>
      k in db.userRestaurants && db.userRestaurants[k] == old(db.userRestaurants)[k]
    ensures r.Err? ==> r.error == IntegrityError && db.userRestaurants == old(db.userRestaurants)
  {
    var rows := RowsIn(db.userRestaurants, userId, restaurantId, l);
    if rows != {} {
      var k :| k in rows;
      SwitchOff(db, userId, restaurantId, l, k);
      return Ok(false), 0;
    }
    r, e := SwitchOn(db, userId, restaurantId, l);
  }

  /** A list that does not exist yet holds no saved restaurant. */
  lemma NewListHoldsNothing(db: Db, rule: NameRule, userId: Id, restaurantId: Id, l: Id)
    requires Constraints(db, rule) && l !in db.lists
    ensures !InList(db.userRestaurants, userId, restaurantId, l)
  {
  }

  /** POST /restaurants/{id}/favorite and POST /restaurants/{id}/visited,
      with `name` "Favorites" or "Visited": the returned flag is the
      restaurant's membership of the special list afterwards, which is the
      opposite of before; rows of every other list are untouched. */
  method ToggleSpecial(db: Database, userId: Id, restaurantId: Id, name: string)
    returns (r: Result<bool>, special: Id, e: Id)
    requires db.Valid() && userId in db.users
    modifies db
    ensures db.Valid()
    ensures db.users == old(db.users) && db.restaurants == old(db.restaurants) && db.notes == old(db.notes)
    ensures r.Ok? ==> ListsNamed(db.lists, userId, name) == {special}
    ensures r.Ok? ==> r.value == InList(db.userRestaurants, userId, restaurantId, special)
    ensures r.Ok? ==> r.value == !InList(old(db.userRestaurants), userId, restaurantId, special)
    ensures forall k :: k in old(db.userRestaurants) && old(db.userRestaurants)[k].listId != Some(special) ==>
      k in db.userRestaurants && db.userRestaurants[k] == old(db.userRestaurants)[k]
    ensures ListsNamed(old(db.lists), userId, name) != {} ==>
      && db.lists == old(db.lists) && special in ListsNamed(old(db.lists), userId, name)
      && (InList(old(db.userRestaurants), userId, restaurantId, special) ==> r == Ok(false))
      && (!InList(old(db.userRestaurants), userId, restaurantId, special) ==>
            && e !in old(db.saveEvents) && db.saveEvents == old(db.saveEvents)[e := ToggleEvent(userId, special)]
            && (r.Ok? <==> restaurantId in db.restaurants && SavedRows(old(db.userRestaurants), userId, restaurantId) == {}))
    ensures ListsNamed(old(db.lists), userId, name) == {} && NameClash(old(db.lists), userId, name, db.schema.nameRule) ==>
      r == Err(IntegrityError) && db.Snapshot() == old(db.Snapshot())
    ensures ListsNamed(old(db.lists), userId, name) == {} && !NameClash(old(db.lists), userId, name, db.schema.nameRule) ==>
      && special !in old(db.lists) && db.lists == old(db.lists)[special := List(userId, name)]
      && e !in old(db.saveEvents) && db.saveEvents == old(db.saveEvents)[e := ToggleEvent(userId, special)]
      && (r.Ok? <==> restaurantId in db.restaurants && SavedRows(old(db.userRestaurants), userId, restaurantId) == {})
    ensures r == Ok(false) ==>
      db.Snapshot() == old(db.Snapshot()).(userRestaurants := RemoveFromList(old(db.userRestaurants), userId, restaurantId, special))
    ensures r == Ok(true) ==>
      && e !in old(db.saveEvents) && db.saveEvents == old(db.saveEvents)[e := ToggleEvent(userId, special)]
      && AddsOne(old(db.userRestaurants), db.userRestaurants, UserRestaurant(userId, restaurantId, Some(special), e))
    ensures r.Err? ==> r.error == IntegrityError && db.userRestaurants == old(db.userRestaurants)
  {
    special, e := 0, 0;
    var list := GetOrCreateSpecialList(db, userId, name);
    if list.Err? {
      return Err(list.error), special, e;
    }
    special := list.value;
    ghost var saved := db.userRestaurants;
    assert saved == old(db.userRestaurants);
    if special !in old(db.lists) {
      NewListHoldsNothing(old(db.Snapshot()), old(db.schema.nameRule), userId, restaurantId, special);
    }
    r, e := ToggleIn(db, userId, restaurantId, special);
    if !InList(saved, userId, restaurantId, special) {
      assert e !in old(db.saveEvents);
    }
  }

  method ToggleFavorite(db: Database, userId: Id, restaurantId: Id) returns (r: Result<bool>, favorites: Id, e: Id)
    requires db.Valid() && userId in db.users
    modifies db
    ensures db.Valid()
    ensures db.users == old(db.users) && db.restaurants == old(db.restaurants) && db.notes == old(db.notes)
    ensures r.Ok? ==> ListsNamed(db.lists, userId, "Favorites") == {favorites}
    ensures r.Ok? ==> r.value == InList(db.userRestaurants, userId, restaurantId, favorites)
    ensures r.Ok? ==> r.value == !InList(old(db.userRestaurants), userId, restaurantId, favorites)
    ensures forall k :: k in old(db.userRestaurants) && old(db.userRestaurants)[k].listId != Some(favorites) ==>
      k in db.userRestaurants && db.userRestaurants[k] == old(db.userRestaurants)[k]
    ensures ListsNamed(old(db.lists), userId, "Favorites") != {} ==>
      && db.lists == old(db.lists) && favorites in ListsNamed(old(db.lists), userId, "Favorites")
      && (InList(old(db.userRestaurants), userId, restaurantId, favorites) ==> r == Ok(false))
      && (!InList(old(db.userRestaurants), userId, restaurantId, favorites) ==>
            && e !in old(db.saveEvents) && db.saveEvents == old(db.saveEvents)[e := ToggleEvent(userId, favorites)]
            && (r.Ok? <==> restaurantId in db.restaurants && SavedRows(old(db.userRestaurants), userId, restaurantId) == {}))
    ensures ListsNamed(old(db.lists), userId, "Favorites") == {} && NameClash(old(db.lists), userId, "Favorites", db.schema.nameRule) ==>
      r == Err(IntegrityError) && db.Snapshot() == old(db.Snapshot())
    ensures ListsNamed(old(db.lists), userId, "Favorites") == {} && !NameClash(old(db.lists), userId, "Favorites", db.schema.nameRule) ==>
      && favorites !in old(db.lists) && db.lists == old(db.lists)[favorites := List(userId, "Favorites")]
      && e !in old(db.saveEvents) && db.saveEvents == old(db.saveEvents)[e := ToggleEvent(userId, favorites)]
      && (r.Ok? <==> restaurantId in db.restaurants && SavedRows(old(db.userRestaurants), userId, restaurantId) == {})
    ensures r == Ok(false) ==>
      db.Snapshot() == old(db.Snapshot()).(userRestaurants := RemoveFromList(old(db.userRestaurants), userId, restaurantId, favorites))
    ensures r == Ok(true) ==>
      && e !in old(db.saveEvents) && db.saveEvents == old(db.saveEvents)[e := ToggleEvent(userId, favorites)]
      && AddsOne(old(db.userRestaurants), db.userRestaurants, UserRestaurant(userId, restaurantId, Some(favorites), e))
    ensures r.Err? ==> r.error == IntegrityError && db.userRestaurants == old(db.userRestaurants)
  {
    r, favorites, e := ToggleSpecial(db, userId, restaurantId, "Favorites");
  }

  method ToggleVisited(db: Database, userId: Id, restaurantId: Id) returns (r: Result<bool>, visited: Id, e: Id)
    requires db.Valid() && userId in db.users
    modifies db
    ensures db.Valid()
    ensures db.users == old(db.users) && db.restaurants == old(db.restaurants) && db.notes == old(db.notes)
    ensures r.Ok? ==> ListsNamed(db.lists, userId, "Visited") == {visited}
    ensures r.Ok? ==> r.value == InList(db.userRestaurants, userId, restaurantId, visited)
    ensures r.Ok? ==> r.value == !InList(old(db.userRestaurants), userId, restaurantId, visited)
    ensures forall k :: k in old(db.userRestaurants) && old(db.userRestaurants)[k].listId != Some(visited) ==>
      k in db.userRestaurants && db.userRestaurants[k] == old(db.userRestaurants)[k]
    ensures ListsNamed(old(db.lists), userId, "Visited") != {} ==>
      && db.lists == old(db.lists) && visited in ListsNamed(old(db.lists), userId, "Visited")
      && (InList(old(db.userRestaurants), userId, restaurantId, visited) ==> r == Ok(false))
      && (!InList(old(db.userRestaurants), userId, restaurantId, visited) ==>
            && e !in old(db.saveEvents) && db.saveEvents == old(db.saveEvents)[e := ToggleEvent(userId, visited)]
            && (r.Ok? <==> restaurantId in db.restaurants && SavedRows(old(db.userRestaurants), userId, restaurantId) == {}))
    ensures ListsNamed(old(db.lists), userId, "Visited") == {} && NameClash(old(db.lists), userId, "Visited", db.schema.nameRule) ==>
      r == Err(IntegrityError) && db.Snapshot() == old(db.Snapshot())
    ensures ListsNamed(old(db.lists), userId, "Visited") == {} && !NameClash(old(db.lists), userId, "Visited", db.schema.nameRule) ==>
      && visited !in old(db.lists) && db.lists == old(db.lists)[visited := List(userId, "Visited")]
      && e !in old(db.saveEvents) && db.saveEvents == old(db.saveEvents)[e := ToggleEvent(userId, visited)]
      && (r.Ok? <==> restaurantId in db.restaurants && SavedRows(old(db.userRestaurants), userId, restaurantId) == {})
    ensures r == Ok(false) ==>
      db.Snapshot() == old(db.Snapshot()).(userRestaurants := RemoveFromList(old(db.userRestaurants), userId, restaurantId, visited))
    ensures r == Ok(true) ==>
      && e !in old(db.saveEvents) && db.saveEvents == old(db.saveEvents)[e := ToggleEvent(userId, visited)]
      && AddsOne(old(db.userRestaurants), db.userRestaurants, UserRestaurant(userId, restaurantId, Some(visited), e))
    ensures r.Err? ==> r.error == IntegrityError && db.userRestaurants == old(db.userRestaurants)
  {
    r, visited, e := ToggleSpecial(db, userId, restaurantId, "Visited");
  }

  /** PUT /restaurants/{id}/notes: the user's note on the restaurant is
      overwritten, or created when there is none. Creating fails when the
      restaurant does not exist. */
  method SaveNotes(db: Database, userId: Id, restaurantId: Id, content: string)
    returns (r: Result<Note>, noteId: Id)
    requires db.Valid() && userId in db.users
    modifies db
    ensures db.Valid()
    ensures db.users == old(db.users) && db.restaurants == old(db.restaurants) && db.lists == old(db.lists)
    ensures db.saveEvents == old(db.saveEvents) && db.userRestaurants == old(db.userRestaurants)
    ensures r.Ok? <==> NotesFor(old(db.notes), userId, restaurantId) != {} || restaurantId in db.restaurants
    ensures r.Ok? ==> r.value == Note(userId, restaurantId, content)
    ensures r.Ok? ==> NotesFor(db.notes, userId, restaurantId) == {noteId} && db.notes[noteId] == r.value
    ensures r.Ok? ==> (noteId in old(db.notes) <==> NotesFor(old(db.notes), userId, restaurantId) != {})
    ensures r.Ok? ==> db.notes == old(db.notes)[noteId := r.value]
    ensures r.Err? ==> r.error == IntegrityError && db.notes == old(db.notes)
  {
    var note := Note(userId, restaurantId, content);
    var existing := NotesFor(db.notes, userId, restaurantId);
    if existing != {} {
      noteId :| noteId in existing;
      assert existing == {noteId} by {
        forall m | m in existing ensures m == noteId { }
      }
    } else {
      noteId := db.FreshId();
    }
    var ok := db.PutNote(noteId, note);
    if !ok {
      return Err(IntegrityError), noteId;
    }
    NotesForAfterPut(old(db.notes), noteId, note);
    r := Ok(note);
  }

  // ---- scenarios the endpoints promise across calls ----

  /** Asking twice for a special list gives the same list, and the second
      call changes nothing. */
  method SpecialListIdempotent(db: Database, userId: Id, name: string)
    returns (first: Result<Id>, second: Result<Id>, ghost between: Db)
    requires db.Valid() && userId in db.users
    modifies db
    ensures first.Ok? ==> second == first && db.Snapshot() == between
  {
    first := GetOrCreateSpecialList(db, userId, name);
    between := db.Snapshot();
    second := GetOrCreateSpecialList(db, userId, name);
  }

  /** Two toggles in a row give the membership back, but when the first
      switched the restaurant on, its "manual_toggle" save event stays. A
      first toggle that succeeds makes the second one succeed too, with the
      opposite answer: after an "on" the row is in the list, and after an
      "off" the restaurant still exists and the user holds it nowhere. */
  method ToggleFavoriteTwice(db: Database, userId: Id, restaurantId: Id)
    returns (first: Result<bool>, second: Result<bool>, favorites: Id)
    requires db.Valid() && userId in db.users
    modifies db
    ensures first.Ok? ==> second.Ok? && second.value == !first.value
    ensures first.Ok? && second.Ok? ==>
      InList(db.userRestaurants, userId, restaurantId, favorites) ==
      InList(old(db.userRestaurants), userId, restaurantId, favorites)
    ensures first == Ok(true) && second.Ok? ==> AddsOne(old(db.saveEvents), db.saveEvents, ToggleEvent(userId, favorites))
  {
    ghost var before := db.Snapshot();
    var e1, e2;
    first, favorites, e1 := ToggleFavorite(db, userId, restaurantId);
    ghost var midSaved := db.userRestaurants;
    ghost var midLists := db.lists;
    if first == Ok(false) {
      OffLeavesRestaurantFree(before, db.schema.nameRule, userId, restaurantId, favorites);
    }
    var f2;
    second, f2, e2 := ToggleFavorite(db, userId, restaurantId);
    if first.Ok? {
      assert favorites in ListsNamed(midLists, userId, "Favorites");
      assert f2 == favorites by {
        assert f2 in ListsNamed(midLists, userId, "Favorites");
      }
      if first == Ok(true) {
        assert InList(midSaved, userId, restaurantId, favorites);
      } else {
        assert !InList(midSaved, userId, restaurantId, favorites);
        assert restaurantId in db.restaurants && SavedRows(midSaved, userId, restaurantId) == {};
      }
    }
    if first.Ok? && second.Ok? {
      assert second.value == !InList(midSaved, userId, restaurantId, favorites);
    }
  }

  /** Switching a restaurant off in list l leaves it existing and held by
      the user nowhere, since (user, restaurant) is unique. */
  lemma OffLeavesRestaurantFree(db: Db, rule: NameRule, userId: Id, restaurantId: Id, l: Id)
    requires Constraints(db, rule) && InList(db.userRestaurants, userId, restaurantId, l)
    ensures restaurantId in db.restaurants
    ensures SavedRows(RemoveFromList(db.userRestaurants, userId, restaurantId, l), userId, restaurantId) == {}
  {
    var saved := db.userRestaurants;
    var k :| k in saved && saved[k].userId == userId && saved[k].restaurantId == restaurantId && saved[k].listId == Some(l);
    assert SavedRefsOk(db, saved[k]);
    var after := RemoveFromList(saved, userId, restaurantId, l);
    assert k in RowsIn(saved, userId, restaurantId, l);
    forall j | j in after ensures after[j].userId != userId || after[j].restaurantId != restaurantId {
      if j != k {
        assert after[j] == saved[j];
      }
    }
  }
}

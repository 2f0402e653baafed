/**
 * The list endpoints (app/api/v1/endpoints/lists.py): creating a list and
 * moving a saved restaurant into a list.
 */
module ListsEndpoint {
  import opened Models
  import opened InitialSchema
  import opened ListNameIndex
  import opened Store

  const DuplicateName := HttpException(400, "List with this name already exists")
  const MissingRestaurantId := HttpException(400, "restaurant_id required")
  const NotSaved := HttpException(404, "Restaurant not saved by user")
  /** FastAPI's request validation failing on a missing required query
      parameter, before the handler runs. */
  const MissingQueryParameter := HttpException(422, "Field required")

  /** POST /lists, as written: the duplicate check compares names exactly,
      so under the LOWER(name) index a name that differs from an existing
      one only in case passes the check and is then rejected by the
      database (IntegrityError, HTTP 500). */
  method CreateList(db: Database, userId: Id, name: string) returns (r: Result<Id>)
    requires db.Valid() && userId in db.users
    modifies db
    ensures db.Valid()
    ensures ListsNamed(old(db.lists), userId, name) != {} ==> r == Err(DuplicateName)
    ensures ListsNamed(old(db.lists), userId, name) == {} ==>
      && (r.Ok? <==> !NameClash(old(db.lists), userId, name, db.schema.nameRule))
      && (r.Err? ==> r.error == IntegrityError)
    ensures r.Err? ==> db.Snapshot() == old(db.Snapshot())
    ensures r.Ok? ==>
      && r.value !in old(db.lists)
      && db.Snapshot() == old(db.Snapshot()).(lists := old(db.lists)[r.value := List(userId, name)])
  {
    if ListsNamed(db.lists, userId, name) != {} {
      return Err(DuplicateName);
    }
    var ok, id := db.InsertList(List(userId, name));
    if !ok {
      return Err(IntegrityError);
    }
    r := Ok(id);
  }

  /** Under the exact rule the check is the constraint, so the insert is
      never rejected; under the LOWER(name) index a case variant passes the
      check but clashes. */
  lemma CreateListCheckVersusIndex(lists: map<Id, List>, userId: Id, name: string)
    ensures ListsNamed(lists, userId, name) == {} ==> !NameClash(lists, userId, name, ExactName)
    ensures ListsNamed(lists, userId, name) == {} && NameClash(lists, userId, name, LowerName) ==>
      exists l :: l in lists && lists[l].userId == userId && lists[l].name != name && Lower(lists[l].name) == Lower(name)
  {
    if ListsNamed(lists, userId, name) == {} && NameClash(lists, userId, name, LowerName) {
      var l :| l in lists && lists[l].userId == userId && SameName(LowerName, lists[l].name, name);
      assert l !in ListsNamed(lists, userId, name);
    }
  }

  /** A user holding "Pizza" who asks for "pizza" passes the check, and the
      LOWER(name) index then rejects the insert. */
  lemma CaseVariantSlipsPastCheck()
    ensures var lists := map[0 := List(0, "Pizza")];
      ListsNamed(lists, 0, "pizza") == {} && NameClash(lists, 0, "pizza", LowerName)
  {
    var lists := map[0 := List(0, "Pizza")];
    assert Lower("Pizza") == Lower("pizza") by {
      assert Lower("Pizza")[0] == 'p';
    }
    assert SameName(LowerName, lists[0].name, "pizza");
  }

  /** The same, on the store: with the index in force, creating a case
      variant of an existing list of the user ends in an IntegrityError. */
  method CreateCaseVariant(db: Database, userId: Id, existing: Id, name: string) returns (r: Result<Id>)
    requires db.Valid() && userId in db.users && db.schema.nameRule == LowerName
    requires existing in db.lists && db.lists[existing].userId == userId
    requires db.lists[existing].name != name && Lower(db.lists[existing].name) == Lower(name)
    modifies db
    ensures r == Err(IntegrityError) && db.Snapshot() == old(db.Snapshot())
  {
    assert SameName(LowerName, db.lists[existing].name, name);
    assert NameClash(db.lists, userId, name, LowerName);
    assert ListsNamed(db.lists, userId, name) == {} by {
      forall l | l in db.lists && db.lists[l].userId == userId ensures db.lists[l].name != name {
        if l != existing {
          assert !SameName(LowerName, db.lists[l].name, db.lists[existing].name);
        }
      }
    }
    r := CreateList(db, userId, name);
  }

  /** The lists of the user whose name equals `name` after folding case. */
  function ListsNamedIgnoringCase(lists: map<Id, List>, userId: Id, name: string): (r: set<Id>)
    ensures r == {} <==> !NameClash(lists, userId, name, LowerName)
  {
    var r := set l | l in lists && lists[l].userId == userId && Lower(lists[l].name) == Lower(name);
    assert forall l :: l in lists && lists[l].userId == userId && SameName(LowerName, lists[l].name, name) ==> l in r;
    r
  }

  /** POST /lists with the check comparing LOWER(name), as the comment on
      the List model says the application does: every clash is reported as
      the 400, under either rule, and the insert is never rejected. */
  method CreateListCaseInsensitive(db: Database, userId: Id, name: string) returns (r: Result<Id>)
    requires db.Valid() && userId in db.users
    modifies db
    ensures db.Valid()
    ensures r.Ok? <==> !NameClash(old(db.lists), userId, name, LowerName)
    ensures r.Err? ==> r.error == DuplicateName && db.Snapshot() == old(db.Snapshot())
    ensures r.Ok? ==>
      && r.value !in old(db.lists)
      && db.Snapshot() == old(db.Snapshot()).(lists := old(db.lists)[r.value := List(userId, name)])
  {
    if ListsNamedIgnoringCase(db.lists, userId, name) != {} {
      return Err(DuplicateName);
    }
    ExactClashIsLowerClash(db.lists, userId, name);
    var ok, id := db.InsertList(List(userId, name));
    r := Ok(id);
  }

  /** POST /lists/{list_id}/restaurants, as written: `restaurant_id` is
      declared as a plain parameter that is not in the path and has no
      default, so FastAPI requires it in the query string and answers 422
      without running the handler when it is missing; the handler itself
      never reads it. `query` None stands for a request without it. */
  method AddRestaurantToList(db: Database, userId: Id, listId: Id, query: Option<string>, restaurantId: Option<Id>)
    returns (r: Result<UserRestaurant>, k: Id)
    requires db.Valid() && userId in db.users
    modifies db
    ensures db.Valid()
    ensures query.None? ==> r == Err(MissingQueryParameter)
    ensures query.Some? && restaurantId.None? ==> r == Err(MissingRestaurantId)
    ensures query.Some? && restaurantId.Some? && SavedRows(old(db.userRestaurants), userId, restaurantId.value) == {} ==>
      r == Err(NotSaved)
    ensures query.Some? && restaurantId.Some? && SavedRows(old(db.userRestaurants), userId, restaurantId.value) != {} ==>
      && SavedRows(old(db.userRestaurants), userId, restaurantId.value) == {k}
      && (r.Ok? <==> listId in old(db.lists))
      && (r.Err? ==> r.error == IntegrityError)
    ensures r.Err? ==> db.Snapshot() == old(db.Snapshot())
    ensures r.Ok? ==> k in old(db.userRestaurants) && r.value == old(db.userRestaurants)[k].(listId := Some(listId))
    ensures r.Ok? ==> db.Snapshot() == old(db.Snapshot()).(userRestaurants := old(db.userRestaurants)[k := r.value])
  {
    if query.None? {
      return Err(MissingQueryParameter), 0;
    }
    r, k := AddRestaurantFromBody(db, userId, listId, restaurantId);
  }

  /** The app's call (APIClient.addRestaurantToList): the restaurant id
      travels in the JSON body only, so every such request is answered 422
      and nothing changes, whatever the user has saved. */
  method AppAddsRestaurantToList(db: Database, userId: Id, listId: Id, restaurantId: Id)
    returns (r: Result<UserRestaurant>)
    requires db.Valid() && userId in db.users
    modifies db
    ensures r == Err(MissingQueryParameter)
    ensures db.Snapshot() == old(db.Snapshot())
  {
    var k;
    r, k := AddRestaurantToList(db, userId, listId, None, Some(restaurantId));
  }

  /** POST /lists/{list_id}/restaurants with `restaurant_id` read from the
      JSON body only, as the handler's code and the app both intend: the
      user's saved row of that restaurant moves to the list. Neither the
      list's owner nor the previous list is checked; a list that does not
      exist makes the database reject the change. `restaurantId` None
      stands for a body without a truthy "restaurant_id". */
  method AddRestaurantFromBody(db: Database, userId: Id, listId: Id, restaurantId: Option<Id>)
    returns (r: Result<UserRestaurant>, k: Id)
    requires db.Valid() && userId in db.users
    modifies db
    ensures db.Valid()
    ensures restaurantId.None? ==> r == Err(MissingRestaurantId)
    ensures restaurantId.Some? && SavedRows(old(db.userRestaurants), userId, restaurantId.value) == {} ==>
      r == Err(NotSaved)
    ensures restaurantId.Some? && SavedRows(old(db.userRestaurants), userId, restaurantId.value) != {} ==>
      && SavedRows(old(db.userRestaurants), userId, restaurantId.value) == {k}
      && (r.Ok? <==> listId in old(db.lists))
      && (r.Err? ==> r.error == IntegrityError)
    ensures r.Err? ==> db.Snapshot() == old(db.Snapshot())
    ensures r.Ok? ==> k in old(db.userRestaurants) && r.value == old(db.userRestaurants)[k].(listId := Some(listId))
    ensures r.Ok? ==> db.Snapshot() == old(db.Snapshot()).(userRestaurants := old(db.userRestaurants)[k := r.value])
  {
    k := 0;
    if restaurantId.None? {
      return Err(MissingRestaurantId), k;
    }
    var rows := SavedRows(db.userRestaurants, userId, restaurantId.value);
    if rows == {} {
      return Err(NotSaved), k;
    }
    k :| k in rows;
    assert rows == {k} by {
      forall m | m in rows ensures m == k { }
    }
    var moved := db.userRestaurants[k].(listId := Some(listId));
    assert SavedRefsOk(db.Snapshot(), db.userRestaurants[k]);
    var ok := db.PutSaved(k, moved);
    if !ok {
      return Err(IntegrityError), k;
    }
    r := Ok(moved);
  }

  /** Nothing stops a user moving a saved restaurant into another user's
      list. */
  method MoveIntoForeignList(db: Database, userId: Id, listId: Id, restaurantId: Id)
    returns (r: Result<UserRestaurant>)
    requires db.Valid() && userId in db.users
    requires listId in db.lists && db.lists[listId].userId != userId
    requires SavedRows(db.userRestaurants, userId, restaurantId) != {}
    modifies db
    ensures r.Ok? && r.value.userId == userId && r.value.listId == Some(listId)
    ensures listId in db.lists && db.lists[listId].userId != userId
  {
    var k;
    r, k := AddRestaurantFromBody(db, userId, listId, Some(restaurantId));
  }
}

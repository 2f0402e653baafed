/**
 * The endpoints that remove a saved restaurant
 * (app/api/v1/endpoints/user_restaurants.py): by the row's id, or by the
 * restaurant's id. Both look only among the current user's rows.
 */
module UserRestaurantsEndpoint {
  import opened Models
  import opened InitialSchema
  import opened Store

  const NotFound := HttpException(404, "Saved restaurant not found")

  /** DELETE /user-restaurants/{id}: the row is removed when it exists and
      belongs to the user, and 404 is returned otherwise. */
  method DeleteUserRestaurant(db: Database, userId: Id, id: Id) returns (r: Result<()>)
    requires db.Valid()
    modifies db
    ensures db.Valid()
    ensures r.Ok? <==> id in old(db.userRestaurants) && old(db.userRestaurants)[id].userId == userId
    ensures r.Err? ==> r.error == NotFound && db.Snapshot() == old(db.Snapshot())
    ensures r.Ok? ==> db.Snapshot() == old(db.Snapshot()).(userRestaurants := old(db.userRestaurants) - {id})
    ensures forall k :: k in old(db.userRestaurants) && old(db.userRestaurants)[k].userId != userId ==>
      k in db.userRestaurants && db.userRestaurants[k] == old(db.userRestaurants)[k]
  {
    if !(id in db.userRestaurants && db.userRestaurants[id].userId == userId) {
      return Err(NotFound);
    }
    RemoveRow(db, id);
    r := Ok(());
  }

  /** DELETE /user-restaurants/restaurant/{restaurant_id}: the user's row
      for the restaurant (at most one) is removed, or 404 is returned. */
  method DeleteUserRestaurantByRestaurant(db: Database, userId: Id, restaurantId: Id) returns (r: Result<()>, k: Id)
    requires db.Valid()
    modifies db
    ensures db.Valid()
    ensures r.Ok? <==> SavedRows(old(db.userRestaurants), userId, restaurantId) != {}
    ensures r.Err? ==> r.error == NotFound && db.Snapshot() == old(db.Snapshot())
    ensures r.Ok? ==> SavedRows(old(db.userRestaurants), userId, restaurantId) == {k}
    ensures r.Ok? ==> db.Snapshot() == old(db.Snapshot()).(userRestaurants := old(db.userRestaurants) - {k})
    ensures SavedRows(db.userRestaurants, userId, restaurantId) == {}
    ensures forall j :: j in old(db.userRestaurants) && old(db.userRestaurants)[j].userId != userId ==>
      j in db.userRestaurants && db.userRestaurants[j] == old(db.userRestaurants)[j]
  {
    k := 0;
    var rows := SavedRows(db.userRestaurants, userId, restaurantId);
    if rows == {} {
      return Err(NotFound), k;
    }
    k :| k in rows;
    assert rows == {k} by {
      forall m | m in rows ensures m == k { }
    }
    RemoveRow(db, k);
    SavedRowsAfterRemove(old(db.userRestaurants), k, userId, restaurantId);
    r := Ok(());
  }

  /** `db.delete(user_rest)` and commit. */
  method RemoveRow(db: Database, k: Id)
    requires db.Valid() && k in db.userRestaurants
    modifies db
    ensures db.Valid()
    ensures db.Snapshot() == old(db.Snapshot()).(userRestaurants := old(db.userRestaurants) - {k})
  {
    db.DeleteSaved(k);
    assert db.userRestaurants == old(db.userRestaurants) - {k};
  }

  /** Deleting the same row twice: the second call finds nothing, so the
      endpoint is not idempotent. */
  method DeleteTwice(db: Database, userId: Id, id: Id) returns (first: Result<()>, second: Result<()>)
    requires db.Valid()
    modifies db
    ensures first.Ok? ==> second == Err(NotFound)
    ensures first.Err? ==> second.Err?
  {
    first := DeleteUserRestaurant(db, userId, id);
    second := DeleteUserRestaurant(db, userId, id);
  }
}

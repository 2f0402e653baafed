/**
 * The relational schema declared by the initial migration
 * (alembic/versions/20240127_0001_initial_schema.py), extended by the
 * columns and tables later migrations add (users.clerk_user_id, the notes
 * table): the six tables, their uniqueness rules and their foreign keys.
 * The list-name rule is in ListNameIndex; the ondelete behaviour of the
 * foreign keys is in CascadeDelete.
 */
module InitialSchema {
  import opened Models

  /** The database: each table a map from primary key to row. */
  datatype Db = Db(
    users: map<Id, User>,
    restaurants: map<Id, Restaurant>,
    lists: map<Id, List>,
    saveEvents: map<Id, SaveEvent>,
    userRestaurants: map<Id, UserRestaurant>,
    notes: map<Id, Note>)

  const EmptyDb := Db(map[], map[], map[], map[], map[], map[])

  // ---- uniqueness rules ----

  /** Unique index ix_users_email. */
  predicate EmailsUnique(users: map<Id, User>) {
    forall a, b :: a in users && b in users && a != b ==> users[a].email != users[b].email
  }

  /** Unique constraint on users.clerk_user_id; NULLs never collide. */
  predicate ClerkIdsUnique(users: map<Id, User>) {
    forall a, b :: a in users && b in users && a != b && users[a].clerkUserId.Some? ==>
      users[a].clerkUserId != users[b].clerkUserId
  }

  /** Unique index ix_restaurants_google_place_id; NULLs never collide. */
  predicate PlaceIdsUnique(restaurants: map<Id, Restaurant>) {
    forall a, b :: a in restaurants && b in restaurants && a != b && restaurants[a].googlePlaceId.Some? ==>
      restaurants[a].googlePlaceId != restaurants[b].googlePlaceId
  }

  /** The rows a user holds for one restaurant. */
  function SavedRows(saved: map<Id, UserRestaurant>, userId: Id, restaurantId: Id): set<Id> {
    set k | k in saved && saved[k].userId == userId && saved[k].restaurantId == restaurantId
  }

  /** Writing row s under key k: the rows for s's pair are the old ones
      plus k. */
  lemma SavedRowsAfterPut(saved: map<Id, UserRestaurant>, k: Id, s: UserRestaurant)
    ensures SavedRows(saved[k := s], s.userId, s.restaurantId) == SavedRows(saved, s.userId, s.restaurantId) + {k}
  {
  }

  /** Removing row k removes it from every pair's rows and nothing else. */
  lemma SavedRowsAfterRemove(saved: map<Id, UserRestaurant>, k: Id, userId: Id, restaurantId: Id)
    ensures SavedRows(saved - {k}, userId, restaurantId) == SavedRows(saved, userId, restaurantId) - {k}
  {
  }

  /** Unique constraint unique_user_restaurant on (user_id, restaurant_id). */
  predicate SavedPairsUnique(saved: map<Id, UserRestaurant>) {
    forall a, b :: a in saved && b in saved && a != b ==>
      saved[a].userId != saved[b].userId || saved[a].restaurantId != saved[b].restaurantId
  }

  /** The notes a user holds for one restaurant. */
  function NotesFor(notes: map<Id, Note>, userId: Id, restaurantId: Id): set<Id> {
    set k | k in notes && notes[k].userId == userId && notes[k].restaurantId == restaurantId
  }

  /** Writing note n under key k: the notes for n's pair are the old ones
      plus k. */
  lemma NotesForAfterPut(notes: map<Id, Note>, k: Id, n: Note)
    ensures NotesFor(notes[k := n], n.userId, n.restaurantId) == NotesFor(notes, n.userId, n.restaurantId) + {k}
  {
  }

  /** Unique constraint on notes (user_id, restaurant_id). */
  predicate NotePairsUnique(notes: map<Id, Note>) {
    forall a, b :: a in notes && b in notes && a != b ==>
      notes[a].userId != notes[b].userId || notes[a].restaurantId != notes[b].restaurantId
  }

  // ---- foreign keys ----

  predicate ListRefsOk(db: Db, l: List) {
    l.userId in db.users
  }

  predicate EventRefsOk(db: Db, e: SaveEvent) {
    && e.userId in db.users
    && (e.targetListId.Some? ==> e.targetListId.value in db.lists)
  }

  predicate SavedRefsOk(db: Db, s: UserRestaurant) {
    && s.userId in db.users
    && s.restaurantId in db.restaurants
    && (s.listId.Some? ==> s.listId.value in db.lists)
    && s.sourceEventId in db.saveEvents
  }

  predicate NoteRefsOk(db: Db, n: Note) {
    n.userId in db.users && n.restaurantId in db.restaurants
  }

  /** Every non-null foreign key points at an existing row. */
  predicate ForeignKeysHold(db: Db) {
    && (forall k :: k in db.lists ==> ListRefsOk(db, db.lists[k]))
    && (forall k :: k in db.saveEvents ==> EventRefsOk(db, db.saveEvents[k]))
    && (forall k :: k in db.userRestaurants ==> SavedRefsOk(db, db.userRestaurants[k]))
    && (forall k :: k in db.notes ==> NoteRefsOk(db, db.notes[k]))
  }

  /** Every key of every table is below `bound`. */
  predicate IdsBelow(db: Db, bound: Id) {
    && (forall k :: k in db.users ==> k < bound)
    && (forall k :: k in db.restaurants ==> k < bound)
    && (forall k :: k in db.lists ==> k < bound)
    && (forall k :: k in db.saveEvents ==> k < bound)
    && (forall k :: k in db.userRestaurants ==> k < bound)
    && (forall k :: k in db.notes ==> k < bound)
  }

  // ---- table creation and drop order ----

  datatype Table = Users | Restaurants | Lists | SaveEvents | UserRestaurants

  /** The foreign keys the initial migration declares, table to table. */
  predicate References(child: Table, parent: Table) {
    match child
    case Lists => parent == Users
    case SaveEvents => parent == Users || parent == Lists
    case UserRestaurants => parent != UserRestaurants
    case _ => false
  }

  /** The order in which `upgrade` creates the tables. */
  const CreateOrder: seq<Table> := [Users, Restaurants, Lists, SaveEvents, UserRestaurants]

  /** The order in which `downgrade` drops them. */
  const DropOrder: seq<Table> := [UserRestaurants, SaveEvents, Lists, Restaurants, Users]

  /** Position of a table in an order that lists it. */
  function IndexOf(order: seq<Table>, t: Table): (i: nat)
    requires t in order
    ensures i < |order| && order[i] == t
    ensures forall j :: 0 <= j < i ==> order[j] != t
  {
    if order[0] == t then 0 else 1 + IndexOf(order[1..], t)
  }

  /** `upgrade` creates every table after each table it references. */
  lemma CreateOrderRespectsReferences(child: Table, parent: Table)
    requires References(child, parent)
    ensures child in CreateOrder && parent in CreateOrder
    ensures IndexOf(CreateOrder, parent) < IndexOf(CreateOrder, child)
  {
    assert CreateOrder[0] == Users && CreateOrder[1] == Restaurants && CreateOrder[2] == Lists;
    assert CreateOrder[3] == SaveEvents && CreateOrder[4] == UserRestaurants;
  }

  /** `downgrade` drops every table only after each table that references it. */
  lemma DropOrderRespectsReferences(child: Table, parent: Table)
    requires References(child, parent)
    ensures child in DropOrder && parent in DropOrder
    ensures IndexOf(DropOrder, child) < IndexOf(DropOrder, parent)
  {
    assert DropOrder[0] == UserRestaurants && DropOrder[1] == SaveEvents && DropOrder[2] == Lists;
    assert DropOrder[3] == Restaurants && DropOrder[4] == Users;
  }
}

/**
 * What deleting a row does to the rows that reference it
 * (alembic/versions/add_cascade_delete_behavior.py).
 *
 * Each foreign key carries an ondelete action. Before the migration every
 * key has PostgreSQL's default (NO ACTION); `upgrade` declares CASCADE,
 * RESTRICT or SET NULL per key and `downgrade` reverts to the default.
 *
 * A delete is taken as one atomic step: first every row the CASCADE keys
 * reach is doomed (following the tables in the order users, restaurants <
 * lists < save_events < user_restaurants, notes, which is the order of the
 * foreign keys), then SET NULL clears nullable keys of surviving rows that
 * point at doomed rows, and the delete is rejected if a surviving row
 * still points at a doomed row through a key whose action does not let go
 * (NO ACTION, RESTRICT, or SET NULL on a NOT NULL column).
 */
module CascadeDelete {
  import opened Models
  import opened InitialSchema
  import opened ListNameIndex

  datatype ForeignKey =
    | ListsUser
    | SaveEventsUser | SaveEventsTargetList
    | SavedUser | SavedRestaurant | SavedList | SavedSourceEvent
    | NotesUser | NotesRestaurant

  /** Only lists.id references may be NULL (user_restaurants.list_id,
      save_events.target_list_id). */
  predicate Nullable(fk: ForeignKey) {
    fk == SavedList || fk == SaveEventsTargetList
  }

  datatype OnDelete = NoAction | Restrict | Cascade | SetNull

  /** Which migration is in force: before add_cascade_delete_behavior (or
      after its downgrade) or after its upgrade. */
  datatype DeleteRules = DefaultRules | DeclaredRules

  /** The ondelete action of each foreign key. */
  function Action(rules: DeleteRules, fk: ForeignKey): OnDelete {
    match rules
    case DefaultRules => NoAction
    case DeclaredRules =>
      match fk
      case SavedUser => Cascade
      case SavedRestaurant => Restrict
      case SavedList => SetNull
      case SavedSourceEvent => Restrict
      case SaveEventsUser => Cascade
      case SaveEventsTargetList => SetNull
      case NotesUser => Cascade
      case NotesRestaurant => Cascade
      case ListsUser => Cascade
  }

  /** The action refuses to let go of a row that is being deleted. */
  predicate Blocks(rules: DeleteRules, fk: ForeignKey) {
    var a := Action(rules, fk);
    a == NoAction || a == Restrict || (a == SetNull && !Nullable(fk))
  }

  predicate Cascades(rules: DeleteRules, fk: ForeignKey) {
    Action(rules, fk) == Cascade
  }

  predicate NullsOut(rules: DeleteRules, fk: ForeignKey) {
    Action(rules, fk) == SetNull && Nullable(fk)
  }

  lemma ActionsAreExhaustive(rules: DeleteRules, fk: ForeignKey)
    ensures Blocks(rules, fk) || Cascades(rules, fk) || NullsOut(rules, fk)
  {
  }

  /** The row a DELETE statement names. */
  datatype Row =
    | UserRow(id: Id) | RestaurantRow(id: Id) | ListRow(id: Id)
    | EventRow(id: Id) | SavedRow(id: Id) | NoteRow(id: Id)

  /** The keys of the rows a delete removes, table by table. */
  datatype Doomed = Doomed(
    users: set<Id>, restaurants: set<Id>, lists: set<Id>,
    events: set<Id>, saved: set<Id>, notes: set<Id>)

  predicate InOpt(o: Option<Id>, s: set<Id>) {
    o.Some? && o.value in s
  }

  function Only(named: bool, id: Id): set<Id> {
    if named then {id} else {}
  }

  predicate EventReached(rules: DeleteRules, e: SaveEvent, users: set<Id>, lists: set<Id>) {
    || (Cascades(rules, SaveEventsUser) && e.userId in users)
    || (Cascades(rules, SaveEventsTargetList) && InOpt(e.targetListId, lists))
  }

  predicate SavedReached(rules: DeleteRules, s: UserRestaurant, users: set<Id>, restaurants: set<Id>,
                         lists: set<Id>, events: set<Id>) {
    || (Cascades(rules, SavedUser) && s.userId in users)
    || (Cascades(rules, SavedRestaurant) && s.restaurantId in restaurants)
    || (Cascades(rules, SavedList) && InOpt(s.listId, lists))
    || (Cascades(rules, SavedSourceEvent) && s.sourceEventId in events)
  }

  predicate NoteReached(rules: DeleteRules, n: Note, users: set<Id>, restaurants: set<Id>) {
    || (Cascades(rules, NotesUser) && n.userId in users)
    || (Cascades(rules, NotesRestaurant) && n.restaurantId in restaurants)
  }

  /** The named row (if it exists) and every row CASCADE reaches from it. */
  function DoomedBy(db: Db, rules: DeleteRules, row: Row): Doomed {
    var users := Only(row.UserRow? && row.id in db.users, row.id);
    var restaurants := Only(row.RestaurantRow? && row.id in db.restaurants, row.id);
    var lists := Only(row.ListRow? && row.id in db.lists, row.id)
      + (set l | l in db.lists && Cascades(rules, ListsUser) && db.lists[l].userId in users);
    var events := Only(row.EventRow? && row.id in db.saveEvents, row.id)
      + (set e | e in db.saveEvents && EventReached(rules, db.saveEvents[e], users, lists));
    var saved := Only(row.SavedRow? && row.id in db.userRestaurants, row.id)
      + (set s | s in db.userRestaurants &&
                 SavedReached(rules, db.userRestaurants[s], users, restaurants, lists, events));
    var notes := Only(row.NoteRow? && row.id in db.notes, row.id)
      + (set n | n in db.notes && NoteReached(rules, db.notes[n], users, restaurants));
    Doomed(users, restaurants, lists, events, saved, notes)
  }

  /** SET NULL on save_events.target_list_id. */
  function ClearTarget(rules: DeleteRules, e: SaveEvent, lists: set<Id>): SaveEvent {
    if NullsOut(rules, SaveEventsTargetList) && InOpt(e.targetListId, lists) then e.(targetListId := None) else e
  }

  /** SET NULL on user_restaurants.list_id. */
  function ClearList(rules: DeleteRules, s: UserRestaurant, lists: set<Id>): UserRestaurant {
    if NullsOut(rules, SavedList) && InOpt(s.listId, lists) then s.(listId := None) else s
  }

  /** A surviving row that still points at a doomed row through a key that
      does not let go. */
  predicate EventHolds(rules: DeleteRules, e: SaveEvent, d: Doomed) {
    || (Blocks(rules, SaveEventsUser) && e.userId in d.users)
    || (Blocks(rules, SaveEventsTargetList) && InOpt(e.targetListId, d.lists))
  }

  predicate SavedHolds(rules: DeleteRules, s: UserRestaurant, d: Doomed) {
    || (Blocks(rules, SavedUser) && s.userId in d.users)
    || (Blocks(rules, SavedRestaurant) && s.restaurantId in d.restaurants)
    || (Blocks(rules, SavedList) && InOpt(s.listId, d.lists))
    || (Blocks(rules, SavedSourceEvent) && s.sourceEventId in d.events)
  }

  predicate NoteHolds(rules: DeleteRules, n: Note, d: Doomed) {
    || (Blocks(rules, NotesUser) && n.userId in d.users)
    || (Blocks(rules, NotesRestaurant) && n.restaurantId in d.restaurants)
  }

  /** The database rejects the delete. */
  predicate Blocked(db: Db, rules: DeleteRules, row: Row) {
    var d := DoomedBy(db, rules, row);
    || (exists l :: l in db.lists && l !in d.lists && Blocks(rules, ListsUser) && db.lists[l].userId in d.users)
    || (exists e :: e in db.saveEvents && e !in d.events && EventHolds(rules, db.saveEvents[e], d))
    || (exists s :: s in db.userRestaurants && s !in d.saved && SavedHolds(rules, db.userRestaurants[s], d))
    || (exists n :: n in db.notes && n !in d.notes && NoteHolds(rules, db.notes[n], d))
  }

  /** The database after a delete that is not rejected. */
  function AfterDelete(db: Db, rules: DeleteRules, row: Row): Db {
    var d := DoomedBy(db, rules, row);
    Db(
      map k | k in db.users && k !in d.users :: db.users[k],
      map k | k in db.restaurants && k !in d.restaurants :: db.restaurants[k],
      map k | k in db.lists && k !in d.lists :: db.lists[k],
      map k | k in db.saveEvents && k !in d.events :: ClearTarget(rules, db.saveEvents[k], d.lists),
      map k | k in db.userRestaurants && k !in d.saved :: ClearList(rules, db.userRestaurants[k], d.lists),
      map k | k in db.notes && k !in d.notes :: db.notes[k])
  }

  /** A delete only removes rows: every key that remains was there before. */
  lemma AfterDeleteOnlyRemoves(db: Db, rules: DeleteRules, row: Row)
    ensures var after := AfterDelete(db, rules, row);
      && after.users.Keys <= db.users.Keys && after.restaurants.Keys <= db.restaurants.Keys
      && after.lists.Keys <= db.lists.Keys && after.saveEvents.Keys <= db.saveEvents.Keys
      && after.userRestaurants.Keys <= db.userRestaurants.Keys && after.notes.Keys <= db.notes.Keys
  {
  }

  lemma AfterDeleteListRefs(db: Db, rules: DeleteRules, row: Row)
    requires ForeignKeysHold(db) && !Blocked(db, rules, row)
    ensures var after := AfterDelete(db, rules, row);
      forall k :: k in after.lists ==> ListRefsOk(after, after.lists[k])
  {
    var d := DoomedBy(db, rules, row);
    var after := AfterDelete(db, rules, row);
    forall k | k in after.lists ensures ListRefsOk(after, after.lists[k]) {
      ActionsAreExhaustive(rules, ListsUser);
      assert db.lists[k].userId !in d.users;
    }
  }

  lemma AfterDeleteEventRefs(db: Db, rules: DeleteRules, row: Row)
    requires ForeignKeysHold(db) && !Blocked(db, rules, row)
    ensures var after := AfterDelete(db, rules, row);
      forall k :: k in after.saveEvents ==> EventRefsOk(after, after.saveEvents[k])
  {
    var d := DoomedBy(db, rules, row);
    var after := AfterDelete(db, rules, row);
    forall k | k in after.saveEvents ensures EventRefsOk(after, after.saveEvents[k]) {
      var e := db.saveEvents[k];
      ActionsAreExhaustive(rules, SaveEventsUser);
      ActionsAreExhaustive(rules, SaveEventsTargetList);
      assert e.userId !in d.users;
      assert !InOpt(e.targetListId, d.lists) || NullsOut(rules, SaveEventsTargetList);
    }
  }

  lemma AfterDeleteSavedRefs(db: Db, rules: DeleteRules, row: Row)
    requires ForeignKeysHold(db) && !Blocked(db, rules, row)
    ensures var after := AfterDelete(db, rules, row);
      forall k :: k in after.userRestaurants ==> SavedRefsOk(after, after.userRestaurants[k])
  {
    var d := DoomedBy(db, rules, row);
    var after := AfterDelete(db, rules, row);
    forall k | k in after.userRestaurants ensures SavedRefsOk(after, after.userRestaurants[k]) {
      var s := db.userRestaurants[k];
      ActionsAreExhaustive(rules, SavedUser);
      ActionsAreExhaustive(rules, SavedRestaurant);
      ActionsAreExhaustive(rules, SavedList);
      ActionsAreExhaustive(rules, SavedSourceEvent);
      assert s.userId !in d.users && s.restaurantId !in d.restaurants && s.sourceEventId !in d.events;
      assert !InOpt(s.listId, d.lists) || NullsOut(rules, SavedList);
    }
  }

  lemma AfterDeleteNoteRefs(db: Db, rules: DeleteRules, row: Row)
    requires ForeignKeysHold(db) && !Blocked(db, rules, row)
    ensures var after := AfterDelete(db, rules, row);
      forall k :: k in after.notes ==> NoteRefsOk(after, after.notes[k])
  {
    var d := DoomedBy(db, rules, row);
    var after := AfterDelete(db, rules, row);
    forall k | k in after.notes ensures NoteRefsOk(after, after.notes[k]) {
      ActionsAreExhaustive(rules, NotesUser);
      ActionsAreExhaustive(rules, NotesRestaurant);
      assert db.notes[k].userId !in d.users && db.notes[k].restaurantId !in d.restaurants;
    }
  }

  /** Every delete the database permits leaves every non-null foreign key
      pointing at an existing row, whatever the ondelete actions are. */
  lemma AfterDeleteKeepsForeignKeys(db: Db, rules: DeleteRules, row: Row)
    requires ForeignKeysHold(db)
    requires !Blocked(db, rules, row)
    ensures ForeignKeysHold(AfterDelete(db, rules, row))
  {
    AfterDeleteListRefs(db, rules, row);
    AfterDeleteEventRefs(db, rules, row);
    AfterDeleteSavedRefs(db, rules, row);
    AfterDeleteNoteRefs(db, rules, row);
  }

  /** A delete never creates a duplicate: the tables only lose rows, and
      SET NULL touches no column of a uniqueness rule. */
  lemma AfterDeleteKeepsUniqueness(db: Db, rules: DeleteRules, row: Row, nameRule: NameRule)
    requires EmailsUnique(db.users) && ClerkIdsUnique(db.users) && PlaceIdsUnique(db.restaurants)
    requires ListNamesUnique(db.lists, nameRule)
    requires SavedPairsUnique(db.userRestaurants) && NotePairsUnique(db.notes)
    ensures var after := AfterDelete(db, rules, row);
      && EmailsUnique(after.users) && ClerkIdsUnique(after.users) && PlaceIdsUnique(after.restaurants)
      && ListNamesUnique(after.lists, nameRule)
      && SavedPairsUnique(after.userRestaurants) && NotePairsUnique(after.notes)
  {
    var after := AfterDelete(db, rules, row);
    SubmapKeepsNamesUnique(db.lists, after.lists, nameRule);
  }

  // ---- the declared rules ----

  /** Under the declared rules, deleting a user takes the user's saved
      restaurants, save events, notes and lists with it. */
  lemma DeleteUserCascades(db: Db, u: Id)
    requires u in db.users
    ensures var after := AfterDelete(db, DeclaredRules, UserRow(u));
      && u !in after.users
      && (forall k :: k in after.lists ==> after.lists[k].userId != u)
      && (forall k :: k in after.saveEvents ==> after.saveEvents[k].userId != u)
      && (forall k :: k in after.userRestaurants ==> after.userRestaurants[k].userId != u)
      && (forall k :: k in after.notes ==> after.notes[k].userId != u)
  {
    var d := DoomedBy(db, DeclaredRules, UserRow(u));
    assert d.users == {u};
  }

  lemma DoomedByRestaurant(db: Db, r: Id)
    requires r in db.restaurants
    ensures DoomedBy(db, DeclaredRules, RestaurantRow(r)) ==
      Doomed({}, {r}, {}, {}, {}, set n | n in db.notes && db.notes[n].restaurantId == r)
  {
    var d := DoomedBy(db, DeclaredRules, RestaurantRow(r));
    assert d.lists == {};
    assert d.events == {};
    assert d.saved == {};
  }

  /** Under the declared rules, a restaurant that some user has saved
      cannot be deleted, and nothing else stops the delete. */
  lemma DeleteRestaurantBlockedIffSaved(db: Db, r: Id)
    requires r in db.restaurants
    ensures Blocked(db, DeclaredRules, RestaurantRow(r)) <==>
      exists s :: s in db.userRestaurants && db.userRestaurants[s].restaurantId == r
  {
    DoomedByRestaurant(db, r);
    var d := DoomedBy(db, DeclaredRules, RestaurantRow(r));
    if exists s :: s in db.userRestaurants && db.userRestaurants[s].restaurantId == r {
      var s :| s in db.userRestaurants && db.userRestaurants[s].restaurantId == r;
      assert SavedHolds(DeclaredRules, db.userRestaurants[s], d);
    }
  }

  /** Under the declared rules, deleting a restaurant removes its notes
      and nothing else besides the restaurant. */
  lemma DeleteRestaurantRemovesNotes(db: Db, r: Id)
    requires r in db.restaurants
    ensures var after := AfterDelete(db, DeclaredRules, RestaurantRow(r));
      && after.restaurants == (map k | k in db.restaurants && k != r :: db.restaurants[k])
      && after.notes == (map k | k in db.notes && db.notes[k].restaurantId != r :: db.notes[k])
      && after.users == db.users && after.lists == db.lists
      && after.saveEvents == db.saveEvents && after.userRestaurants == db.userRestaurants
  {
    DoomedByRestaurant(db, r);
    var after := AfterDelete(db, DeclaredRules, RestaurantRow(r));
    assert after.users == db.users;
    assert after.lists == db.lists;
    assert after.saveEvents == db.saveEvents;
    assert after.userRestaurants == db.userRestaurants;
  }

  lemma DoomedByList(db: Db, l: Id)
    requires l in db.lists
    ensures DoomedBy(db, DeclaredRules, ListRow(l)) == Doomed({}, {}, {l}, {}, {}, {})
  {
    var d := DoomedBy(db, DeclaredRules, ListRow(l));
    assert d.lists == {l};
    assert d.events == {};
    assert d.saved == {};
    assert d.notes == {};
  }

  /** Under the declared rules, deleting a list is never rejected. */
  lemma DeleteListNeverBlocked(db: Db, l: Id)
    requires l in db.lists
    ensures !Blocked(db, DeclaredRules, ListRow(l))
  {
    DoomedByList(db, l);
  }

  /** Under the declared rules, deleting a list moves its saved
      restaurants to "Unsorted" and clears the target of save events aiming
      at it; no such row is removed. */
  lemma DeleteListSetsNull(db: Db, l: Id)
    requires l in db.lists
    ensures var after := AfterDelete(db, DeclaredRules, ListRow(l));
      && after.lists == (map k | k in db.lists && k != l :: db.lists[k])
      && after.userRestaurants.Keys == db.userRestaurants.Keys
      && (forall k :: k in after.userRestaurants ==>
            after.userRestaurants[k] ==
              if db.userRestaurants[k].listId == Some(l) then db.userRestaurants[k].(listId := None)
              else db.userRestaurants[k])
      && after.saveEvents.Keys == db.saveEvents.Keys
      && (forall k :: k in after.saveEvents ==>
            after.saveEvents[k] ==
              if db.saveEvents[k].targetListId == Some(l) then db.saveEvents[k].(targetListId := None)
              else db.saveEvents[k])
      && after.users == db.users && after.restaurants == db.restaurants && after.notes == db.notes
  {
    DoomedByList(db, l);
    DeleteListSavedRows(db, l);
    DeleteListEvents(db, l);
    var after := AfterDelete(db, DeclaredRules, ListRow(l));
    assert after.users == db.users;
    assert after.restaurants == db.restaurants;
    assert after.notes == db.notes;
  }

  lemma DeleteListSavedRows(db: Db, l: Id)
    requires l in db.lists
    ensures var after := AfterDelete(db, DeclaredRules, ListRow(l));
      && after.userRestaurants.Keys == db.userRestaurants.Keys
      && (forall k :: k in after.userRestaurants ==>
            after.userRestaurants[k] ==
              if db.userRestaurants[k].listId == Some(l) then db.userRestaurants[k].(listId := None)
              else db.userRestaurants[k])
  {
    DoomedByList(db, l);
    var after := AfterDelete(db, DeclaredRules, ListRow(l));
    assert after.userRestaurants.Keys == db.userRestaurants.Keys;
  }

  lemma DeleteListEvents(db: Db, l: Id)
    requires l in db.lists
    ensures var after := AfterDelete(db, DeclaredRules, ListRow(l));
      && after.saveEvents.Keys == db.saveEvents.Keys
      && (forall k :: k in after.saveEvents ==>
            after.saveEvents[k] ==
              if db.saveEvents[k].targetListId == Some(l) then db.saveEvents[k].(targetListId := None)
              else db.saveEvents[k])
  {
    DoomedByList(db, l);
    var after := AfterDelete(db, DeclaredRules, ListRow(l));
    assert after.saveEvents.Keys == db.saveEvents.Keys;
  }

  lemma DoomedByEvent(db: Db, e: Id)
    requires e in db.saveEvents
    ensures DoomedBy(db, DeclaredRules, EventRow(e)) == Doomed({}, {}, {}, {e}, {}, {})
  {
    var d := DoomedBy(db, DeclaredRules, EventRow(e));
    assert d.lists == {};
    assert d.events == {e};
    assert d.saved == {};
    assert d.notes == {};
  }

  /** Under the declared rules, a save event that is still the source of a
      saved restaurant cannot be deleted. */
  lemma DeleteEventBlockedIffSource(db: Db, e: Id)
    requires e in db.saveEvents
    ensures Blocked(db, DeclaredRules, EventRow(e)) <==>
      exists s :: s in db.userRestaurants && db.userRestaurants[s].sourceEventId == e
  {
    DoomedByEvent(db, e);
    var d := DoomedBy(db, DeclaredRules, EventRow(e));
    if exists s :: s in db.userRestaurants && db.userRestaurants[s].sourceEventId == e {
      var s :| s in db.userRestaurants && db.userRestaurants[s].sourceEventId == e;
      assert SavedHolds(DeclaredRules, db.userRestaurants[s], d);
    }
  }

  // ---- the default rules ----

  /** Some row points at the named row through a foreign key. */
  predicate Referenced(db: Db, row: Row) {
    match row
    case UserRow(u) =>
      || (exists k :: k in db.lists && db.lists[k].userId == u)
      || (exists k :: k in db.saveEvents && db.saveEvents[k].userId == u)
      || (exists k :: k in db.userRestaurants && db.userRestaurants[k].userId == u)
      || (exists k :: k in db.notes && db.notes[k].userId == u)
    case RestaurantRow(r) =>
      || (exists k :: k in db.userRestaurants && db.userRestaurants[k].restaurantId == r)
      || (exists k :: k in db.notes && db.notes[k].restaurantId == r)
    case ListRow(l) =>
      || (exists k :: k in db.saveEvents && db.saveEvents[k].targetListId == Some(l))
      || (exists k :: k in db.userRestaurants && db.userRestaurants[k].listId == Some(l))
    case EventRow(e) =>
      exists k :: k in db.userRestaurants && db.userRestaurants[k].sourceEventId == e
    case SavedRow(_) => false
    case NoteRow(_) => false
  }

  predicate Exists(db: Db, row: Row) {
    match row
    case UserRow(k) => k in db.users
    case RestaurantRow(k) => k in db.restaurants
    case ListRow(k) => k in db.lists
    case EventRow(k) => k in db.saveEvents
    case SavedRow(k) => k in db.userRestaurants
    case NoteRow(k) => k in db.notes
  }

  lemma DoomedByDefault(db: Db, row: Row)
    requires Exists(db, row)
    ensures DoomedBy(db, DefaultRules, row) == Doomed(
      Only(row.UserRow?, row.id), Only(row.RestaurantRow?, row.id), Only(row.ListRow?, row.id),
      Only(row.EventRow?, row.id), Only(row.SavedRow?, row.id), Only(row.NoteRow?, row.id))
  {
    var d := DoomedBy(db, DefaultRules, row);
    assert d.lists == Only(row.ListRow?, row.id);
    assert d.events == Only(row.EventRow?, row.id);
    assert d.saved == Only(row.SavedRow?, row.id);
    assert d.notes == Only(row.NoteRow?, row.id);
  }

  lemma DefaultUserDelete(db: Db, u: Id)
    requires u in db.users
    ensures Blocked(db, DefaultRules, UserRow(u)) <==> Referenced(db, UserRow(u))
  {
    DoomedByDefault(db, UserRow(u));
    var d := DoomedBy(db, DefaultRules, UserRow(u));
    if exists k :: k in db.saveEvents && db.saveEvents[k].userId == u {
      var k :| k in db.saveEvents && db.saveEvents[k].userId == u;
      assert EventHolds(DefaultRules, db.saveEvents[k], d);
    }
    if exists k :: k in db.userRestaurants && db.userRestaurants[k].userId == u {
      var k :| k in db.userRestaurants && db.userRestaurants[k].userId == u;
      assert SavedHolds(DefaultRules, db.userRestaurants[k], d);
    }
    if exists k :: k in db.notes && db.notes[k].userId == u {
      var k :| k in db.notes && db.notes[k].userId == u;
      assert NoteHolds(DefaultRules, db.notes[k], d);
    }
  }

  lemma DefaultRestaurantDelete(db: Db, r: Id)
    requires r in db.restaurants
    ensures Blocked(db, DefaultRules, RestaurantRow(r)) <==> Referenced(db, RestaurantRow(r))
  {
    DoomedByDefault(db, RestaurantRow(r));
    var d := DoomedBy(db, DefaultRules, RestaurantRow(r));
    if exists k :: k in db.userRestaurants && db.userRestaurants[k].restaurantId == r {
      var k :| k in db.userRestaurants && db.userRestaurants[k].restaurantId == r;
      assert SavedHolds(DefaultRules, db.userRestaurants[k], d);
    }
    if exists k :: k in db.notes && db.notes[k].restaurantId == r {
      var k :| k in db.notes && db.notes[k].restaurantId == r;
      assert NoteHolds(DefaultRules, db.notes[k], d);
    }
  }

  lemma DefaultListDelete(db: Db, l: Id)
    requires l in db.lists
    ensures Blocked(db, DefaultRules, ListRow(l)) <==> Referenced(db, ListRow(l))
  {
    DoomedByDefault(db, ListRow(l));
    var d := DoomedBy(db, DefaultRules, ListRow(l));
    if exists k :: k in db.saveEvents && db.saveEvents[k].targetListId == Some(l) {
      var k :| k in db.saveEvents && db.saveEvents[k].targetListId == Some(l);
      assert EventHolds(DefaultRules, db.saveEvents[k], d);
    }
    if exists k :: k in db.userRestaurants && db.userRestaurants[k].listId == Some(l) {
      var k :| k in db.userRestaurants && db.userRestaurants[k].listId == Some(l);
      assert SavedHolds(DefaultRules, db.userRestaurants[k], d);
    }
  }

  lemma DefaultEventDelete(db: Db, e: Id)
    requires e in db.saveEvents
    ensures Blocked(db, DefaultRules, EventRow(e)) <==> Referenced(db, EventRow(e))
  {
    DoomedByDefault(db, EventRow(e));
    var d := DoomedBy(db, DefaultRules, EventRow(e));
    if exists k :: k in db.userRestaurants && db.userRestaurants[k].sourceEventId == e {
      var k :| k in db.userRestaurants && db.userRestaurants[k].sourceEventId == e;
      assert SavedHolds(DefaultRules, db.userRestaurants[k], d);
    }
  }

  lemma DefaultLeafDelete(db: Db, row: Row)
    requires Exists(db, row) && (row.SavedRow? || row.NoteRow?)
    ensures !Blocked(db, DefaultRules, row)
  {
    DoomedByDefault(db, row);
  }

  /** With the default actions (before the migration, or after its
      downgrade) a delete is rejected exactly when some row references the
      deleted one, and it never reaches beyond the named row. */
  lemma DefaultRulesRejectReferencedRows(db: Db, row: Row)
    requires Exists(db, row)
    ensures Blocked(db, DefaultRules, row) <==> Referenced(db, row)
    ensures var d := DoomedBy(db, DefaultRules, row);
      |d.users| + |d.restaurants| + |d.lists| + |d.events| + |d.saved| + |d.notes| == 1
  {
    DoomedByDefault(db, row);
    match row {
      case UserRow(u) => DefaultUserDelete(db, u);
      case RestaurantRow(r) => DefaultRestaurantDelete(db, r);
      case ListRow(l) => DefaultListDelete(db, l);
      case EventRow(e) => DefaultEventDelete(db, e);
      case SavedRow(_) => DefaultLeafDelete(db, row);
      case NoteRow(_) => DefaultLeafDelete(db, row);
    }
  }
}

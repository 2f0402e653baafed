/**
 * The PostgreSQL database the endpoints and the worker talk to, as one
 * object holding the six tables.
 *
 * A session's `commit` is modelled by `Commit`: the database accepts the
 * new contents exactly when they satisfy every uniqueness rule and every
 * foreign key of the schema in force, and otherwise rejects them whole and
 * keeps the old contents (the IntegrityError an endpoint does not catch).
 * `uuid4` is modelled by `FreshId`, a counter above every key in use.
 */
module Store {
  import opened Models
  import opened InitialSchema
  import opened ListNameIndex
  import opened CascadeDelete

  /** Every rule the database enforces on its contents. */
  predicate Constraints(db: Db, rule: NameRule) {
    && EmailsUnique(db.users)
    && ClerkIdsUnique(db.users)
    && PlaceIdsUnique(db.restaurants)
    && ListNamesUnique(db.lists, rule)
    && SavedPairsUnique(db.userRestaurants)
    && NotePairsUnique(db.notes)
    && ForeignKeysHold(db)
  }

  // ---- which writes the database accepts ----

  /** Inserting a list is accepted exactly when its user exists and holds
      no list whose name collides with it under the rule in force. */
  lemma AddListAccepted(db: Db, rule: NameRule, id: Id, l: List)
    requires Constraints(db, rule) && id !in db.lists
    ensures Constraints(db.(lists := db.lists[id := l]), rule) <==>
      l.userId in db.users && !NameClash(db.lists, l.userId, l.name, rule)
  {
    var after := db.(lists := db.lists[id := l]);
    AddListKeepsNamesUnique(db.lists, id, l, rule);
    if l.userId in db.users && !NameClash(db.lists, l.userId, l.name, rule) {
      forall k | k in after.lists ensures ListRefsOk(after, after.lists[k]) {
        if k != id { assert ListRefsOk(db, db.lists[k]); }
      }
      forall k | k in after.saveEvents ensures EventRefsOk(after, after.saveEvents[k]) {
        assert EventRefsOk(db, db.saveEvents[k]);
      }
      forall k | k in after.userRestaurants ensures SavedRefsOk(after, after.userRestaurants[k]) {
        assert SavedRefsOk(db, db.userRestaurants[k]);
      }
      forall k | k in after.notes ensures NoteRefsOk(after, after.notes[k]) {
        assert NoteRefsOk(db, db.notes[k]);
      }
    } else if l.userId !in db.users {
      assert !ListRefsOk(after, after.lists[id]);
    }
  }

  /** Writing a save event under key k (a new one, or a change of an
      existing one) is accepted exactly when its user and its target list
      exist: no rule constrains save events besides their foreign keys. */
  lemma SetEventAccepted(db: Db, rule: NameRule, k: Id, e: SaveEvent)
    requires Constraints(db, rule)
    ensures Constraints(db.(saveEvents := db.saveEvents[k := e]), rule) <==> EventRefsOk(db, e)
  {
    var after := db.(saveEvents := db.saveEvents[k := e]);
    if EventRefsOk(db, e) {
      forall j | j in after.userRestaurants ensures SavedRefsOk(after, after.userRestaurants[j]) {
        assert SavedRefsOk(db, db.userRestaurants[j]);
      }
      forall j | j in after.saveEvents ensures EventRefsOk(after, after.saveEvents[j]) {
        if j != k { assert EventRefsOk(db, db.saveEvents[j]); }
      }
    } else {
      assert !EventRefsOk(after, after.saveEvents[k]);
    }
  }

  /** Within the table, replacing or adding row k keeps (user_id,
      restaurant_id) unique exactly when no other row has the new pair. */
  lemma SetSavedKeepsPairs(saved: map<Id, UserRestaurant>, k: Id, s: UserRestaurant)
    requires SavedPairsUnique(saved)
    ensures SavedPairsUnique(saved[k := s]) <==> SavedRows(saved, s.userId, s.restaurantId) <= {k}
  {
    var after := saved[k := s];
    if SavedRows(saved, s.userId, s.restaurantId) <= {k} {
      forall a, b | a in after && b in after && a != b
        ensures after[a].userId != after[b].userId || after[a].restaurantId != after[b].restaurantId
      {
        if a == k {
          assert b !in SavedRows(saved, s.userId, s.restaurantId);
        } else if b == k {
          assert a !in SavedRows(saved, s.userId, s.restaurantId);
        }
      }
    } else {
      var j :| j in SavedRows(saved, s.userId, s.restaurantId) && j != k;
      assert after[k].userId == after[j].userId && after[k].restaurantId == after[j].restaurantId;
    }
  }

  /** Writing a saved restaurant under key k is accepted exactly when its
      four references exist and no other row of the same user holds the
      same restaurant. */
  lemma SetSavedAccepted(db: Db, rule: NameRule, k: Id, s: UserRestaurant)
    requires Constraints(db, rule)
    ensures Constraints(db.(userRestaurants := db.userRestaurants[k := s]), rule) <==>
      SavedRefsOk(db, s) && SavedRows(db.userRestaurants, s.userId, s.restaurantId) <= {k}
  {
    var after := db.(userRestaurants := db.userRestaurants[k := s]);
    SetSavedKeepsPairs(db.userRestaurants, k, s);
    if SavedRefsOk(db, s) {
      forall j | j in after.userRestaurants ensures SavedRefsOk(after, after.userRestaurants[j]) {
        if j != k { assert SavedRefsOk(db, db.userRestaurants[j]); }
      }
    } else {
      assert !SavedRefsOk(after, after.userRestaurants[k]);
    }
  }

  /** Writing a note under key k is accepted exactly when its user and
      restaurant exist and no other note of the same user is about the same
      restaurant. */
  lemma SetNoteAccepted(db: Db, rule: NameRule, k: Id, n: Note)
    requires Constraints(db, rule)
    ensures Constraints(db.(notes := db.notes[k := n]), rule) <==>
      NoteRefsOk(db, n) && NotesFor(db.notes, n.userId, n.restaurantId) <= {k}
  {
    var after := db.(notes := db.notes[k := n]);
    if NoteRefsOk(db, n) && NotesFor(db.notes, n.userId, n.restaurantId) <= {k} {
      forall a, b | a in after.notes && b in after.notes && a != b
        ensures after.notes[a].userId != after.notes[b].userId
             || after.notes[a].restaurantId != after.notes[b].restaurantId
      {
        if a == k {
          assert b !in NotesFor(db.notes, n.userId, n.restaurantId);
        } else if b == k {
          assert a !in NotesFor(db.notes, n.userId, n.restaurantId);
        }
      }
    } else if !NoteRefsOk(db, n) {
      assert !NoteRefsOk(after, after.notes[k]);
    } else {
      var j :| j in NotesFor(db.notes, n.userId, n.restaurantId) && j != k;
      assert j in after.notes && after.notes[j] == db.notes[j];
      assert !NotePairsUnique(after.notes) by {
        assert after.notes[k].userId == after.notes[j].userId;
        assert after.notes[k].restaurantId == after.notes[j].restaurantId;
      }
    }
  }

  /** No other user holds the email, or the (non-null) Clerk id. */
  predicate EmailFree(users: map<Id, User>, k: Id, email: string) {
    forall j :: j in users && j != k ==> users[j].email != email
  }

  predicate ClerkIdFree(users: map<Id, User>, k: Id, clerkUserId: Option<string>) {
    clerkUserId.Some? ==> forall j :: j in users && j != k ==> users[j].clerkUserId != clerkUserId
  }

  /** Writing a user under key k is accepted exactly when no other user has
      the same email or the same Clerk id. */
  lemma SetUserAccepted(db: Db, rule: NameRule, k: Id, u: User)
    requires Constraints(db, rule)
    ensures Constraints(db.(users := db.users[k := u]), rule) <==>
      EmailFree(db.users, k, u.email) && ClerkIdFree(db.users, k, u.clerkUserId)
  {
    var after := db.(users := db.users[k := u]);
    if EmailFree(db.users, k, u.email) && ClerkIdFree(db.users, k, u.clerkUserId) {
      forall j | j in after.lists ensures ListRefsOk(after, after.lists[j]) {
        assert ListRefsOk(db, db.lists[j]);
      }
      forall j | j in after.saveEvents ensures EventRefsOk(after, after.saveEvents[j]) {
        assert EventRefsOk(db, db.saveEvents[j]);
      }
      forall j | j in after.userRestaurants ensures SavedRefsOk(after, after.userRestaurants[j]) {
        assert SavedRefsOk(db, db.userRestaurants[j]);
      }
      forall j | j in after.notes ensures NoteRefsOk(after, after.notes[j]) {
        assert NoteRefsOk(db, db.notes[j]);
      }
    } else if !EmailFree(db.users, k, u.email) {
      var j :| j in db.users && j != k && db.users[j].email == u.email;
      assert after.users[j].email == after.users[k].email;
    } else {
      var j :| j in db.users && j != k && db.users[j].clerkUserId == u.clerkUserId;
      assert after.users[k].clerkUserId.Some? && after.users[j].clerkUserId == after.users[k].clerkUserId;
    }
  }

  /** Inserting a restaurant is accepted exactly when it has no Google
      place id or its place id is used by no other restaurant. */
  lemma AddRestaurantAccepted(db: Db, rule: NameRule, k: Id, r: Restaurant)
    requires Constraints(db, rule) && k !in db.restaurants
    ensures Constraints(db.(restaurants := db.restaurants[k := r]), rule) <==>
      r.googlePlaceId.None? || forall j :: j in db.restaurants ==> db.restaurants[j].googlePlaceId != r.googlePlaceId
  {
    var after := db.(restaurants := db.restaurants[k := r]);
    if r.googlePlaceId.None? || forall j :: j in db.restaurants ==> db.restaurants[j].googlePlaceId != r.googlePlaceId {
      forall j | j in after.userRestaurants ensures SavedRefsOk(after, after.userRestaurants[j]) {
        assert SavedRefsOk(db, db.userRestaurants[j]);
      }
      forall j | j in after.notes ensures NoteRefsOk(after, after.notes[j]) {
        assert NoteRefsOk(db, db.notes[j]);
      }
    } else {
      var j :| j in db.restaurants && db.restaurants[j].googlePlaceId == r.googlePlaceId;
      assert after.restaurants[j].googlePlaceId == after.restaurants[k].googlePlaceId;
    }
  }

  lemma DoomedBySaved(db: Db, rules: DeleteRules, k: Id)
    requires k in db.userRestaurants
    ensures DoomedBy(db, rules, SavedRow(k)) == Doomed({}, {}, {}, {}, {k}, {})
  {
    var d := DoomedBy(db, rules, SavedRow(k));
    assert d.lists == {};
    assert d.events == {};
    assert d.notes == {};
    assert d.saved == {k};
  }

  /** Removing a saved restaurant is never rejected, under either set of
      ondelete rules: no foreign key points at user_restaurants. */
  lemma DeleteSavedRowNeverBlocked(db: Db, rules: DeleteRules, k: Id)
    requires k in db.userRestaurants
    ensures !Blocked(db, rules, SavedRow(k))
  {
    DoomedBySaved(db, rules, k);
  }

  /** ... and it removes that row and nothing else. */
  lemma DeleteSavedRowAlone(db: Db, rules: DeleteRules, k: Id)
    requires k in db.userRestaurants
    ensures AfterDelete(db, rules, SavedRow(k)) ==
      db.(userRestaurants := map j | j in db.userRestaurants && j != k :: db.userRestaurants[j])
  {
    DoomedBySaved(db, rules, k);
    var d := Doomed({}, {}, {}, {}, {k}, {});
    var after := AfterDelete(db, rules, SavedRow(k));
    assert after.users == db.users;
    assert after.restaurants == db.restaurants;
    assert after.lists == db.lists;
    assert after.saveEvents == db.saveEvents by {
      forall e | e in db.saveEvents ensures ClearTarget(rules, db.saveEvents[e], d.lists) == db.saveEvents[e] { }
    }
    assert after.notes == db.notes;
    assert after.userRestaurants == map j | j in db.userRestaurants && j != k :: db.userRestaurants[j] by {
      forall j | j in db.userRestaurants ensures ClearList(rules, db.userRestaurants[j], d.lists) == db.userRestaurants[j] { }
    }
  }

  /** A delete the database permits keeps every rule it enforces, and
      brings no new key. */
  lemma DeleteAccepted(db: Db, nameRule: NameRule, rules: DeleteRules, row: Row, bound: Id)
    requires Constraints(db, nameRule) && IdsBelow(db, bound) && !Blocked(db, rules, row)
    ensures Constraints(AfterDelete(db, rules, row), nameRule)
    ensures IdsBelow(AfterDelete(db, rules, row), bound)
  {
    AfterDeleteKeepsForeignKeys(db, rules, row);
    AfterDeleteKeepsUniqueness(db, rules, row, nameRule);
    AfterDeleteOnlyRemoves(db, rules, row);
  }

  /** The schema state the migrations change: which list-name rule and
      which ondelete actions are in force. */
  class Schema {
    var nameRule: NameRule
    var deleteRules: DeleteRules

    /** After the initial migration. */
    constructor ()
      ensures nameRule == ExactName && deleteRules == DefaultRules
    {
      nameRule := ExactName;
      deleteRules := DefaultRules;
    }
  }

  class Database {
    const schema: Schema
    var users: map<Id, User>
    var restaurants: map<Id, Restaurant>
    var lists: map<Id, List>
    var saveEvents: map<Id, SaveEvent>
    var userRestaurants: map<Id, UserRestaurant>
    var notes: map<Id, Note>
    /** Every key in use is below this; the next fresh key. */
    var nextId: Id

    function Snapshot(): Db
      reads this
    {
      Db(users, restaurants, lists, saveEvents, userRestaurants, notes)
    }

    ghost predicate Valid()
      reads this, schema
    {
      Constraints(Snapshot(), schema.nameRule) && IdsBelow(Snapshot(), nextId)
    }

    /** An empty database right after the initial migration. */
    constructor ()
      ensures Valid() && fresh(schema)
      ensures Snapshot() == EmptyDb
      ensures schema.nameRule == ExactName && schema.deleteRules == DefaultRules
    {
      schema := new Schema();
      users, restaurants, lists := map[], map[], map[];
      saveEvents, userRestaurants, notes := map[], map[], map[];
      nextId := 0;
    }

    /** A key used by no row of any table (uuid4). */
    method FreshId() returns (id: Id)
      requires Valid()
      modifies this`nextId
      ensures Valid()
      ensures id < nextId
      ensures id !in users && id !in restaurants && id !in lists
      ensures id !in saveEvents && id !in userRestaurants && id !in notes
    {
      id := nextId;
      nextId := nextId + 1;
    }

    /** `session.commit()`: the candidate contents replace the tables when
        the database accepts them, and are rolled back otherwise. */
    method Commit(candidate: Db) returns (ok: bool)
      requires Valid() && IdsBelow(candidate, nextId)
      modifies this
      ensures Valid() && nextId == old(nextId)
      ensures ok == Constraints(candidate, schema.nameRule)
      ensures Snapshot() == if ok then candidate else old(Snapshot())
    {
      ok := Constraints(candidate, schema.nameRule);
      if ok {
        users, restaurants, lists := candidate.users, candidate.restaurants, candidate.lists;
        saveEvents, userRestaurants, notes := candidate.saveEvents, candidate.userRestaurants, candidate.notes;
      }
    }

    // ---- one write and its commit ----

    /** `db.add(list)` and commit. */
    method InsertList(l: List) returns (ok: bool, id: Id)
      requires Valid()
      modifies this
      ensures Valid() && id !in old(lists)
      ensures ok == (l.userId in old(users) && !NameClash(old(lists), l.userId, l.name, schema.nameRule))
      ensures Snapshot() == if ok then old(Snapshot()).(lists := old(lists)[id := l]) else old(Snapshot())
    {
      id := FreshId();
      var before := Snapshot();
      AddListAccepted(before, schema.nameRule, id, l);
      ok := Commit(before.(lists := before.lists[id := l]));
    }

    /** `db.add(save_event)` and commit, for a new or a changed event. */
    method PutEvent(k: Id, e: SaveEvent) returns (ok: bool)
      requires Valid() && k < nextId
      modifies this
      ensures Valid() && nextId == old(nextId)
      ensures ok == EventRefsOk(old(Snapshot()), e)
      ensures Snapshot() == if ok then old(Snapshot()).(saveEvents := old(saveEvents)[k := e]) else old(Snapshot())
    {
      var before := Snapshot();
      SetEventAccepted(before, schema.nameRule, k, e);
      ok := Commit(before.(saveEvents := before.saveEvents[k := e]));
    }

    method InsertEvent(e: SaveEvent) returns (ok: bool, id: Id)
      requires Valid()
      modifies this
      ensures Valid() && id !in old(saveEvents)
      ensures ok == EventRefsOk(old(Snapshot()), e)
      ensures Snapshot() == if ok then old(Snapshot()).(saveEvents := old(saveEvents)[id := e]) else old(Snapshot())
    {
      id := FreshId();
      ok := PutEvent(id, e);
    }

    /** `db.add(user_restaurant)` and commit, for a new or a changed row. */
    method PutSaved(k: Id, s: UserRestaurant) returns (ok: bool)
      requires Valid() && k < nextId
      modifies this
      ensures Valid() && nextId == old(nextId)
      ensures ok == (SavedRefsOk(old(Snapshot()), s) && SavedRows(old(userRestaurants), s.userId, s.restaurantId) <= {k})
      ensures Snapshot() ==
        if ok then old(Snapshot()).(userRestaurants := old(userRestaurants)[k := s]) else old(Snapshot())
    {
      var before := Snapshot();
      SetSavedAccepted(before, schema.nameRule, k, s);
      ok := Commit(before.(userRestaurants := before.userRestaurants[k := s]));
    }

    method InsertSaved(s: UserRestaurant) returns (ok: bool, id: Id)
      requires Valid()
      modifies this
      ensures Valid() && id !in old(userRestaurants)
      ensures ok == (SavedRefsOk(old(Snapshot()), s) && SavedRows(old(userRestaurants), s.userId, s.restaurantId) == {})
      ensures Snapshot() ==
        if ok then old(Snapshot()).(userRestaurants := old(userRestaurants)[id := s]) else old(Snapshot())
    {
      id := FreshId();
      ok := PutSaved(id, s);
    }

    /** `db.add(user_restaurant)`, a change to save event k, and one commit
        covering both. */
    method InsertSavedWithEvent(s: UserRestaurant, k: Id, e: SaveEvent) returns (ok: bool, id: Id)
      requires Valid() && k in saveEvents
      modifies this
      ensures Valid() && id !in old(userRestaurants)
      ensures ok == (EventRefsOk(old(Snapshot()), e) && SavedRefsOk(old(Snapshot()), s)
                     && SavedRows(old(userRestaurants), s.userId, s.restaurantId) == {})
      ensures Snapshot() ==
        if ok then old(Snapshot()).(saveEvents := old(saveEvents)[k := e], userRestaurants := old(userRestaurants)[id := s])
        else old(Snapshot())
    {
      id := FreshId();
      var before := Snapshot();
      var mid := before.(saveEvents := before.saveEvents[k := e]);
      var after := mid.(userRestaurants := mid.userRestaurants[id := s]);
      SetEventAccepted(before, schema.nameRule, k, e);
      if Constraints(mid, schema.nameRule) {
        SetSavedAccepted(mid, schema.nameRule, id, s);
        assert SavedRefsOk(mid, s) == SavedRefsOk(before, s);
      } else {
        assert !EventRefsOk(after, after.saveEvents[k]);
      }
      ok := Commit(after);
    }

    /** `db.add(note)` and commit, for a new or a changed note. */
    method PutNote(k: Id, n: Note) returns (ok: bool)
      requires Valid() && k < nextId
      modifies this
      ensures Valid() && nextId == old(nextId)
      ensures ok == (NoteRefsOk(old(Snapshot()), n) && NotesFor(old(notes), n.userId, n.restaurantId) <= {k})
      ensures Snapshot() == if ok then old(Snapshot()).(notes := old(notes)[k := n]) else old(Snapshot())
    {
      var before := Snapshot();
      SetNoteAccepted(before, schema.nameRule, k, n);
      ok := Commit(before.(notes := before.notes[k := n]));
    }

    /** `db.add(user)` and commit, for a new or a changed user. */
    method PutUser(k: Id, u: User) returns (ok: bool)
      requires Valid() && k < nextId
      modifies this
      ensures Valid() && nextId == old(nextId)
      ensures ok == (EmailFree(old(users), k, u.email) && ClerkIdFree(old(users), k, u.clerkUserId))
      ensures Snapshot() == if ok then old(Snapshot()).(users := old(users)[k := u]) else old(Snapshot())
    {
      var before := Snapshot();
      SetUserAccepted(before, schema.nameRule, k, u);
      ok := Commit(before.(users := before.users[k := u]));
    }

    /** `db.add(restaurant)` and commit, for a restaurant without a place
        id. */
    method InsertRestaurant(r: Restaurant) returns (id: Id)
      requires Valid() && r.googlePlaceId.None?
      modifies this
      ensures Valid() && id !in old(restaurants)
      ensures Snapshot() == old(Snapshot()).(restaurants := old(restaurants)[id := r])
    {
      id := FreshId();
      var before := Snapshot();
      AddRestaurantAccepted(before, schema.nameRule, id, r);
      var ok := Commit(before.(restaurants := before.restaurants[id := r]));
    }

    /** `db.delete(user_restaurant)` and commit: never rejected. */
    method DeleteSaved(k: Id)
      requires Valid() && k in userRestaurants
      modifies this
      ensures Valid() && nextId == old(nextId)
      ensures Snapshot() == old(Snapshot()).(userRestaurants := map j | j in old(userRestaurants) && j != k :: old(userRestaurants)[j])
    {
      DeleteSavedRowNeverBlocked(Snapshot(), schema.deleteRules, k);
      DeleteSavedRowAlone(Snapshot(), schema.deleteRules, k);
      var _ := Delete(SavedRow(k));
    }

    /** `session.delete(row)` followed by `commit`: the delete, with the
        ondelete actions in force, goes through unless a surviving row would
        still reference a removed one. */
    method Delete(row: Row) returns (ok: bool)
      requires Valid()
      modifies this
      ensures Valid() && nextId == old(nextId)
      ensures ok == !Blocked(old(Snapshot()), schema.deleteRules, row)
      ensures Snapshot() == if ok then AfterDelete(old(Snapshot()), schema.deleteRules, row) else old(Snapshot())
    {
      var db := Snapshot();
      ok := !Blocked(db, schema.deleteRules, row);
      if ok {
        var after := AfterDelete(db, schema.deleteRules, row);
        DeleteAccepted(db, schema.nameRule, schema.deleteRules, row, nextId);
        users, restaurants, lists := after.users, after.restaurants, after.lists;
        saveEvents, userRestaurants, notes := after.saveEvents, after.userRestaurants, after.notes;
      }
    }

    /** Migration add_case_insensitive_list_name_constraint, `upgrade`:
        creating the unique index on (user_id, LOWER(name)) fails when two
        lists of one user already differ only in case. */
    method UpgradeListNameIndex() returns (ok: bool)
      requires Valid() && schema.nameRule == ExactName
      modifies schema
      ensures Valid() && schema.deleteRules == old(schema.deleteRules)
      ensures ok == ListNamesUnique(lists, LowerName)
      ensures schema.nameRule == if ok then LowerName else ExactName
    {
      ok := ListNamesUnique(lists, LowerName);
      if ok {
        schema.nameRule := LowerName;
      }
    }

    /** Migration add_case_insensitive_list_name_constraint, `downgrade`:
        restoring the exact constraint never fails. */
    method DowngradeListNameIndex()
      requires Valid() && schema.nameRule == LowerName
      modifies schema
      ensures Valid() && schema.deleteRules == old(schema.deleteRules)
      ensures schema.nameRule == ExactName
    {
      LowerRuleImpliesExactRule(lists);
      schema.nameRule := ExactName;
    }

    /** Migration add_cascade_delete_behavior, `upgrade` and `downgrade`:
        re-adding each foreign key validates the existing rows, and both
        always succeed because a valid database already resolves every
        reference; only the ondelete actions change. */
    method UpgradeCascadeRules()
      requires Valid()
      modifies schema
      ensures Valid() && schema.nameRule == old(schema.nameRule)
      ensures schema.deleteRules == DeclaredRules
    {
      schema.deleteRules := DeclaredRules;
    }

    method DowngradeCascadeRules()
      requires Valid()
      modifies schema
      ensures Valid() && schema.nameRule == old(schema.nameRule)
      ensures schema.deleteRules == DefaultRules
    {
      schema.deleteRules := DefaultRules;
    }
  }
}

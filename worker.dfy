/**
 * The background worker (app/worker.py): the extraction task that takes a
 * pending save event through "processing" to "complete", choosing a
 * candidate restaurant from the caption, finding or creating it, and
 * saving it for the event's user unless the user has it already.
 *
 * The Celery broker is modelled by `TaskQueue`, the list of event ids
 * whose extraction has been requested.
 */
module Worker {
  import opened Models
  import opened InitialSchema
  import opened ListNameIndex
  import opened Store

  // ---- the caption rule ----

  /** Python's `pat in s` on strings. */
  function Contains(s: string, pat: string): bool
    decreases |s|
  {
    if |s| < |pat| then false
    else if s[..|pat|] == pat then true
    else Contains(s[1..], pat)
  }

  /** `pat` occurs in `s` at position i. */
  predicate OccursAt(s: string, pat: string, i: int) {
    0 <= i && i + |pat| <= |s| && s[i..i + |pat|] == pat
  }

  /** `Contains` finds `pat` exactly when it occurs somewhere in `s`. */
  lemma {:induction false} ContainsIffOccurs(s: string, pat: string)
    ensures Contains(s, pat) <==> exists i :: OccursAt(s, pat, i)
    decreases |s|
  {
    if |s| < |pat| {
      forall i ensures !OccursAt(s, pat, i) { }
    } else if s[..|pat|] == pat {
      assert OccursAt(s, pat, 0);
    } else {
      ContainsIffOccurs(s[1..], pat);
      if Contains(s[1..], pat) {
        var i :| OccursAt(s[1..], pat, i);
        assert s[1..][i..i + |pat|] == s[i + 1..i + 1 + |pat|];
        assert OccursAt(s, pat, i + 1);
      } else {
        forall i | OccursAt(s, pat, i) ensures false {
          assert s[0..|pat|] == s[..|pat|];
          assert i != 0;
          assert s[1..][i - 1..i - 1 + |pat|] == s[i..i + |pat|];
          assert OccursAt(s[1..], pat, i - 1);
        }
      }
    }
  }

  datatype Candidate = Candidate(name: string, city: string)

  const Sushi := Candidate("Sushi Nakazawa", "Tokyo")
  const Pizza := Candidate("Joe's Pizza", "New York")

  /** Step 2 of `extract_info`: the mock extraction from the caption, a
      missing caption reading as the empty text. */
  function ChooseCandidate(rawCaption: Option<string>): (c: Candidate)
    ensures c == Sushi || c == Pizza
  {
    if Contains(rawCaption.GetOr(""), "Sushi") then Sushi else Pizza
  }

  /** A caption containing "Sushi" yields Sushi Nakazawa in Tokyo; any
      other caption, and a missing one, yields Joe's Pizza in New York. */
  lemma CandidateChoice(rawCaption: Option<string>)
    ensures ChooseCandidate(rawCaption) == Sushi <==>
      rawCaption.Some? && exists i :: OccursAt(rawCaption.value, "Sushi", i)
    ensures rawCaption.None? ==> ChooseCandidate(rawCaption) == Pizza
  {
    ContainsIffOccurs(rawCaption.GetOr(""), "Sushi");
    if rawCaption.None? {
      assert !Contains("", "Sushi");
    }
  }

  // ---- resolving and saving ----

  /** The restaurants named `name` in `city`. */
  function Matching(restaurants: map<Id, Restaurant>, name: string, city: string): set<Id> {
    set k | k in restaurants && restaurants[k].name == name && restaurants[k].city == city
  }

  /** The restaurant `resolve_restaurant` creates when none matches: the
      mock coordinates of New York and price range "$$". */
  function MockRestaurant(name: string, city: string): Restaurant {
    Restaurant(name, "40.7128", "-74.006", city, Some("$$"), None)
  }

  /** `resolve_restaurant`: some restaurant with exactly that name and
      city, created when there is none. */
  method ResolveRestaurant(db: Database, name: string, city: string) returns (id: Id)
    requires db.Valid()
    modifies db
    ensures db.Valid()
    ensures id in db.restaurants && db.restaurants[id].name == name && db.restaurants[id].city == city
    ensures Matching(old(db.restaurants), name, city) != {} ==>
      id in old(db.restaurants) && db.Snapshot() == old(db.Snapshot())
    ensures Matching(old(db.restaurants), name, city) == {} ==>
      id !in old(db.restaurants) &&
      db.Snapshot() == old(db.Snapshot()).(restaurants := old(db.restaurants)[id := MockRestaurant(name, city)])
  {
    var found := Matching(db.restaurants, name, city);
    if found != {} {
      id :| id in found;
      return;
    }
    id := db.InsertRestaurant(MockRestaurant(name, city));
  }

  /** `finalize_save` for save event k and restaurant r: when the event's
      user already holds r (in any list), the event is marked complete with
      the message "Restaurant already saved" and no row is added; otherwise
      a row for r in the event's target list, pointing back at the event, is
      added in the same commit that marks the event complete. */
  method FinalizeSave(db: Database, k: Id, r: Id)
    requires db.Valid() && k in db.saveEvents && r in db.restaurants
    modifies db
    ensures db.Valid()
    ensures db.users == old(db.users) && db.restaurants == old(db.restaurants)
    ensures db.lists == old(db.lists) && db.notes == old(db.notes)
    ensures var e := old(db.saveEvents[k]);
      SavedRows(old(db.userRestaurants), e.userId, r) != {} ==>
        && db.userRestaurants == old(db.userRestaurants)
        && db.saveEvents == old(db.saveEvents)[k := e.(status := Complete, errorMessage := Some("Restaurant already saved"))]
    ensures var e := old(db.saveEvents[k]);
      SavedRows(old(db.userRestaurants), e.userId, r) == {} ==>
        && AddsOne(old(db.userRestaurants), db.userRestaurants, UserRestaurant(e.userId, r, e.targetListId, k))
        && db.saveEvents == old(db.saveEvents)[k := e.(status := Complete)]
    ensures |SavedRows(db.userRestaurants, old(db.saveEvents[k]).userId, r)| == 1
    ensures k in db.saveEvents && db.saveEvents == old(db.saveEvents)[k := db.saveEvents[k]]
    ensures db.saveEvents[k].status == Complete
  {
    var e := db.saveEvents[k];
    if SavedRows(db.userRestaurants, e.userId, r) != {} {
      MarkDuplicate(db, k, r);
    } else {
      SaveNew(db, k, r);
    }
  }

  /** The duplicate branch of `finalize_save`. */
  method MarkDuplicate(db: Database, k: Id, r: Id)
    requires db.Valid() && k in db.saveEvents
    requires SavedRows(db.userRestaurants, db.saveEvents[k].userId, r) != {}
    modifies db
    ensures db.Valid()
    ensures var e := old(db.saveEvents[k]);
      db.Snapshot() == old(db.Snapshot()).(saveEvents :=
        old(db.saveEvents)[k := e.(status := Complete, errorMessage := Some("Restaurant already saved"))])
    ensures |SavedRows(db.userRestaurants, old(db.saveEvents[k]).userId, r)| == 1
  {
    var e := db.saveEvents[k];
    assert EventRefsOk(db.Snapshot(), e);
    var existing := SavedRows(db.userRestaurants, e.userId, r);
    var j :| j in existing;
    assert existing == {j} by {
      forall m | m in existing ensures m == j { }
    }
    var _ := db.PutEvent(k, e.(status := Complete, errorMessage := Some("Restaurant already saved")));
  }

  /** The insert branch of `finalize_save`: never rejected, since the
      event's user and target list exist and the user does not hold r. */
  method SaveNew(db: Database, k: Id, r: Id)
    requires db.Valid() && k in db.saveEvents && r in db.restaurants
    requires SavedRows(db.userRestaurants, db.saveEvents[k].userId, r) == {}
    modifies db
    ensures db.Valid()
    ensures db.users == old(db.users) && db.restaurants == old(db.restaurants)
    ensures db.lists == old(db.lists) && db.notes == old(db.notes)
    ensures var e := old(db.saveEvents[k]);
      && AddsOne(old(db.userRestaurants), db.userRestaurants, UserRestaurant(e.userId, r, e.targetListId, k))
      && db.saveEvents == old(db.saveEvents)[k := e.(status := Complete)]
    ensures |SavedRows(db.userRestaurants, old(db.saveEvents[k]).userId, r)| == 1
  {
    var e := db.saveEvents[k];
    assert EventRefsOk(db.Snapshot(), e);
    var row := UserRestaurant(e.userId, r, e.targetListId, k);
    var ok, id := db.InsertSavedWithEvent(row, k, e.(status := Complete));
    assert ok;
    SavedRowsAfterPut(old(db.userRestaurants), id, row);
  }

  /** What steps 2 to 4 of `extract_info` do to the tables, for the save
      event e stored under k and the restaurant r they resolve: no user,
      list or note changes; the candidate restaurant is reused when one
      matches and otherwise r is the one restaurant added; when the user
      already holds r the event only becomes complete with the message
      "Restaurant already saved", and otherwise one row of r in the event's
      target list, pointing back at k, is added as the event becomes
      complete. */
  ghost predicate ExtractionEffect(before: Db, after: Db, k: Id, e: SaveEvent, r: Id) {
    var c := ChooseCandidate(e.rawCaption);
    && after.users == before.users && after.lists == before.lists && after.notes == before.notes
    && (Matching(before.restaurants, c.name, c.city) != {} ==>
          r in before.restaurants && after.restaurants == before.restaurants)
    && (Matching(before.restaurants, c.name, c.city) == {} ==>
          r !in before.restaurants && after.restaurants == before.restaurants[r := MockRestaurant(c.name, c.city)])
    && (SavedRows(before.userRestaurants, e.userId, r) != {} ==>
          && after.userRestaurants == before.userRestaurants
          && after.saveEvents == before.saveEvents[k := e.(status := Complete, errorMessage := Some("Restaurant already saved"))])
    && (SavedRows(before.userRestaurants, e.userId, r) == {} ==>
          && AddsOne(before.userRestaurants, after.userRestaurants, UserRestaurant(e.userId, r, e.targetListId, k))
          && after.saveEvents == before.saveEvents[k := e.(status := Complete)])
  }

  /** Only save events already marked failed are failed afterwards. */
  predicate NoNewFailures(before: map<Id, SaveEvent>, after: map<Id, SaveEvent>) {
    forall k :: k in after && after[k].status == Failed ==> k in before && before[k].status == Failed
  }

  /** Step 1 of `extract_info`: the event is committed as processing. */
  method BeginProcessing(db: Database, k: Id)
    requires db.Valid() && k in db.saveEvents
    modifies db
    ensures db.Valid()
    ensures db.Snapshot() == old(db.Snapshot()).(saveEvents := old(db.saveEvents)[k := old(db.saveEvents[k]).(status := Processing)])
  {
    var e := db.saveEvents[k];
    assert EventRefsOk(db.Snapshot(), e);
    var _ := db.PutEvent(k, e.(status := Processing));
  }

  /** The task `extract_info` for save event k. An unknown id changes
      nothing. Otherwise the event is committed as processing, which is its
      state while the restaurant is resolved (`atResolve`), and ends
      complete; the restaurant matching the caption's candidate is saved
      exactly once for the event's user. The worker never marks an event
      failed. */
  method ExtractInfo(db: Database, k: Id) returns (restaurant: Option<Id>, ghost atResolve: Db)
    requires db.Valid()
    modifies db
    ensures db.Valid()
    ensures restaurant.None? <==> k !in old(db.saveEvents)
    ensures restaurant.None? ==> db.Snapshot() == old(db.Snapshot())
    ensures db.users == old(db.users) && db.lists == old(db.lists) && db.notes == old(db.notes)
    ensures NoNewFailures(old(db.saveEvents), db.saveEvents)
    ensures restaurant.Some? ==>
      atResolve == old(db.Snapshot()).(saveEvents := old(db.saveEvents)[k := old(db.saveEvents[k]).(status := Processing)])
    ensures restaurant.Some? ==>
      ExtractionEffect(old(db.Snapshot()), db.Snapshot(), k, old(db.saveEvents[k]), restaurant.value)
    ensures restaurant.Some? ==>
      && k in db.saveEvents && db.saveEvents[k].status == Complete
      && restaurant.value in db.restaurants
      && var c := ChooseCandidate(old(db.saveEvents[k]).rawCaption);
         db.restaurants[restaurant.value].name == c.name && db.restaurants[restaurant.value].city == c.city
    ensures restaurant.Some? ==> |SavedRows(db.userRestaurants, old(db.saveEvents[k]).userId, restaurant.value)| == 1
    ensures forall j :: j in old(db.saveEvents) && j != k ==> j in db.saveEvents && db.saveEvents[j] == old(db.saveEvents[j])
  {
    atResolve := db.Snapshot();
    if k !in db.saveEvents {
      return None, atResolve;
    }
    var r;
    r, atResolve := ProcessEvent(db, k);
    restaurant := Some(r);
  }

  /** `extract_info` for an event that exists. */
  method ProcessEvent(db: Database, k: Id) returns (r: Id, ghost atResolve: Db)
    requires db.Valid() && k in db.saveEvents
    modifies db
    ensures db.Valid()
    ensures db.users == old(db.users) && db.lists == old(db.lists) && db.notes == old(db.notes)
    ensures NoNewFailures(old(db.saveEvents), db.saveEvents)
    ensures atResolve == old(db.Snapshot()).(saveEvents := old(db.saveEvents)[k := old(db.saveEvents[k]).(status := Processing)])
    ensures ExtractionEffect(old(db.Snapshot()), db.Snapshot(), k, old(db.saveEvents[k]), r)
    ensures k in db.saveEvents && db.saveEvents[k].status == Complete
    ensures r in db.restaurants
    ensures var c := ChooseCandidate(old(db.saveEvents[k]).rawCaption);
      db.restaurants[r].name == c.name && db.restaurants[r].city == c.city
    ensures |SavedRows(db.userRestaurants, old(db.saveEvents[k]).userId, r)| == 1
    ensures forall j :: j in old(db.saveEvents) && j != k ==> j in db.saveEvents && db.saveEvents[j] == old(db.saveEvents[j])
  {
    ghost var before := db.Snapshot();
    BeginProcessing(db, k);
    atResolve := db.Snapshot();
    r := ResolveAndFinalize(db, k);
    EffectIgnoresProcessing(before, atResolve, db.Snapshot(), k, r);
    EffectKeepsOtherEvents(before, db.Snapshot(), k, r);
  }

  /** Steps 2 to 4 complete event k, leave every other event as it was,
      and so mark no event failed. */
  lemma EffectKeepsOtherEvents(before: Db, after: Db, k: Id, r: Id)
    requires k in before.saveEvents
    requires ExtractionEffect(before, after, k, before.saveEvents[k], r)
    ensures k in after.saveEvents && after.saveEvents[k].status == Complete
    ensures forall j :: j in before.saveEvents && j != k ==> j in after.saveEvents && after.saveEvents[j] == before.saveEvents[j]
    ensures NoNewFailures(before.saveEvents, after.saveEvents)
  {
    forall j | j in after.saveEvents && after.saveEvents[j].status == Failed
      ensures j in before.saveEvents && before.saveEvents[j].status == Failed
    {
      assert j != k;
    }
  }

  /** Committing the event as processing first does not change what steps
      2 to 4 do, measured from the state before that commit. */
  lemma EffectIgnoresProcessing(before: Db, mid: Db, after: Db, k: Id, r: Id)
    requires k in before.saveEvents
    requires mid == before.(saveEvents := before.saveEvents[k := before.saveEvents[k].(status := Processing)])
    requires ExtractionEffect(mid, after, k, mid.saveEvents[k], r)
    ensures ExtractionEffect(before, after, k, before.saveEvents[k], r)
  {
    var e := before.saveEvents[k];
    assert mid.saveEvents[k] == e.(status := Processing);
    assert mid.saveEvents[k].(status := Complete) == e.(status := Complete);
    assert mid.saveEvents[k].(status := Complete, errorMessage := Some("Restaurant already saved"))
        == e.(status := Complete, errorMessage := Some("Restaurant already saved"));
    assert mid.saveEvents[k := after.saveEvents[k]] == before.saveEvents[k := after.saveEvents[k]];
  }

  /** Steps 2 to 4 of `extract_info`, once the event is processing. */
  method ResolveAndFinalize(db: Database, k: Id) returns (r: Id)
    requires db.Valid() && k in db.saveEvents
    modifies db
    ensures db.Valid()
    ensures db.users == old(db.users) && db.lists == old(db.lists) && db.notes == old(db.notes)
    ensures k in db.saveEvents && db.saveEvents[k].status == Complete
    ensures db.saveEvents == old(db.saveEvents)[k := db.saveEvents[k]]
    ensures r in db.restaurants
    ensures var c := ChooseCandidate(old(db.saveEvents[k]).rawCaption);
      db.restaurants[r].name == c.name && db.restaurants[r].city == c.city
    ensures |SavedRows(db.userRestaurants, old(db.saveEvents[k]).userId, r)| == 1
    ensures ExtractionEffect(old(db.Snapshot()), db.Snapshot(), k, old(db.saveEvents[k]), r)
  {
    var e := db.saveEvents[k];
    var c := ChooseCandidate(e.rawCaption);
    r := ResolveRestaurant(db, c.name, c.city);
    ghost var resolved := db.Snapshot();
    FinalizeSave(db, k, r);
    assert db.saveEvents == resolved.saveEvents[k := db.saveEvents[k]];
  }

  /** Resolving the same name and city twice creates at most one
      restaurant, and the second call creates none. */
  method ResolveTwice(db: Database, name: string, city: string) returns (first: Id, second: Id)
    requires db.Valid()
    modifies db
    ensures db.restaurants == old(db.restaurants) || AddsOne(old(db.restaurants), db.restaurants, MockRestaurant(name, city))
    ensures first in db.restaurants && second in db.restaurants
    ensures Matching(old(db.restaurants), name, city) == {} ==> second == first
  {
    first := ResolveRestaurant(db, name, city);
    ghost var mid := db.restaurants;
    assert first in Matching(mid, name, city);
    if Matching(old(db.restaurants), name, city) == {} {
      assert Matching(mid, name, city) == {first} by {
        forall m | m in Matching(mid, name, city) ensures m == first {
          assert m !in Matching(old(db.restaurants), name, city);
        }
      }
    }
    second := ResolveRestaurant(db, name, city);
    assert second in Matching(mid, name, city);
  }

  /** The broker: ids of the save events whose extraction is queued, in
      the order requested. */
  class TaskQueue {
    var jobs: seq<Id>

    constructor ()
      ensures jobs == []
    {
      jobs := [];
    }

    /** `extract_info.delay(id)`. */
    method Enqueue(id: Id)
      modifies this
      ensures jobs == old(jobs) + [id]
    {
      jobs := jobs + [id];
    }
  }
}

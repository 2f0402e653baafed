/**
 * The endpoint that records a shared link (app/api/v1/endpoints/save_events.py):
 * a pending save event is committed and its extraction is queued.
 */
module SaveEventsEndpoint {
  import opened Models
  import opened InitialSchema
  import opened Store
  import opened Worker

  /** The 202 Accepted response carrying the created event. */
  datatype Accepted = Accepted(httpStatus: nat, id: Id, event: SaveEvent)

  /** The event POST /save-events records: source "instagram", pending,
      with the request's URL (as text), caption and target list. */
  function RequestedEvent(userId: Id, sourceUrl: string, rawCaption: Option<string>, targetListId: Option<Id>): SaveEvent {
    NewSaveEvent(userId, sourceUrl, rawCaption := rawCaption, targetListId := targetListId)
  }

  /** POST /save-events: exactly one event is committed and then exactly
      one job carrying its id is queued. A target list that does not exist
      makes the database reject the event, and then nothing is queued. */
  method CreateSaveEvent(db: Database, queue: TaskQueue, userId: Id, sourceUrl: string,
                         rawCaption: Option<string>, targetListId: Option<Id>)
    returns (r: Result<Accepted>)
    requires db.Valid() && userId in db.users
    modifies db, queue
    ensures db.Valid()
    ensures r.Ok? <==> (targetListId.Some? ==> targetListId.value in old(db.lists))
    ensures r.Ok? ==>
      && r.value.httpStatus == 202
      && r.value.event == RequestedEvent(userId, sourceUrl, rawCaption, targetListId)
      && StatusValue(r.value.event.status) == "pending"
      && r.value.id !in old(db.saveEvents)
      && db.Snapshot() == old(db.Snapshot()).(saveEvents := old(db.saveEvents)[r.value.id := r.value.event])
      && queue.jobs == old(queue.jobs) + [r.value.id]
    ensures r.Err? ==> r.error == IntegrityError && db.Snapshot() == old(db.Snapshot()) && queue.jobs == old(queue.jobs)
  {
    var event := RequestedEvent(userId, sourceUrl, rawCaption, targetListId);
    var ok, id := db.InsertEvent(event);
    if !ok {
      return Err(IntegrityError);
    }
    queue.Enqueue(id);
    r := Ok(Accepted(202, id, event));
  }

  /** A recorded link, once its job runs, ends complete with the caption's
      candidate restaurant saved for the user: the tables are those of the
      recorded event followed by the worker's resolving and saving. A
      target list that does not exist records nothing and queues nothing. */
  method SaveAndExtract(db: Database, queue: TaskQueue, userId: Id, sourceUrl: string,
                        rawCaption: Option<string>, targetListId: Option<Id>)
    returns (r: Result<Accepted>, restaurant: Option<Id>)
    requires db.Valid() && userId in db.users
    modifies db, queue
    ensures db.Valid()
    ensures r.Ok? <==> (targetListId.Some? ==> targetListId.value in old(db.lists))
    ensures r.Err? ==> restaurant.None? && db.Snapshot() == old(db.Snapshot()) && queue.jobs == old(queue.jobs)
    ensures r.Ok? ==>
      && r.value.id !in old(db.saveEvents)
      && queue.jobs == old(queue.jobs) + [r.value.id]
      && restaurant.Some?
      && ExtractionEffect(old(db.Snapshot()).(saveEvents := old(db.saveEvents)[r.value.id := r.value.event]),
                          db.Snapshot(), r.value.id, RequestedEvent(userId, sourceUrl, rawCaption, targetListId),
                          restaurant.value)
    ensures r.Ok? ==> r.value.id in db.saveEvents && db.saveEvents[r.value.id].status == Complete
    ensures r.Ok? ==> restaurant.Some? && |SavedRows(db.userRestaurants, userId, restaurant.value)| == 1
    ensures r.Ok? ==>
      && restaurant.value in db.restaurants
      && db.restaurants[restaurant.value].name == ChooseCandidate(rawCaption).name
      && db.restaurants[restaurant.value].city == ChooseCandidate(rawCaption).city
  {
    restaurant := None;
    r := CreateSaveEvent(db, queue, userId, sourceUrl, rawCaption, targetListId);
    if r.Ok? {
      var job := queue.jobs[|queue.jobs| - 1];
      assert job == r.value.id;
      ghost var atResolve;
      restaurant, atResolve := ExtractInfo(db, job);
    }
  }
}

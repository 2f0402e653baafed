/**
 * Record shapes of the backend's tables (the files under app/models) and the result
 * type shared by the endpoints.
 *
 * Timestamps (created_at, updated_at) are left out: no modelled operation
 * reads them.
 */
module Models {

  /** A primary key. The backend draws random UUIDs; the store hands out
      naturals that are fresh by construction. */
  type Id = nat

  datatype Option<T> = None | Some(value: T) {
    function GetOr(default: T): T {
      if Some? then value else default
    }
  }

  /** `after` is `before` with one row added under a key not in use. */
  ghost predicate AddsOne<V>(before: map<Id, V>, after: map<Id, V>, v: V) {
    exists k: Id :: k !in before && after == before[k := v]
  }

  /** Python truthiness of an optional string: present and not empty. */
  predicate Truthy(s: Option<string>) {
    s.Some? && s.value != ""
  }

  /** The four processing states of a save event. */
  datatype SaveEventStatus = Pending | Processing | Complete | Failed

  /** The text stored in the `status` column for each state. */
  function StatusValue(s: SaveEventStatus): string {
    match s
    case Pending => "pending"
    case Processing => "processing"
    case Complete => "complete"
    case Failed => "failed"
  }

  /** Reads a `status` column value back; any other text is not a state. */
  function ParseStatus(text: string): (r: Option<SaveEventStatus>)
    ensures r.Some? ==> StatusValue(r.value) == text
  {
    if text == "pending" then Some(Pending)
    else if text == "processing" then Some(Processing)
    else if text == "complete" then Some(Complete)
    else if text == "failed" then Some(Failed)
    else None
  }

  /** Every state is stored as a text that reads back as that same state,
      so the four values are pairwise distinct. */
  lemma StatusValueRoundTrip(s: SaveEventStatus)
    ensures ParseStatus(StatusValue(s)) == Some(s)
  {
    match s
    case Pending =>
    case Processing =>
    case Complete =>
    case Failed =>
  }

  /** A coordinate, kept as the text Python prints for the float, in
      positional form ("-74.006") or in exponent form ("1e-05", "1.5e+16");
      floating-point arithmetic is not modelled. */
  predicate IsFloatText(s: string) {
    |s| > 0 && forall i :: 0 <= i < |s| ==> s[i] in "+-.0123456789e"
  }

  type Coord = s: string | IsFloatText(s) witness "0"

  datatype User = User(
    clerkUserId: Option<string>,
    email: string,
    name: Option<string>,
    hashedPassword: Option<string>)

  datatype Restaurant = Restaurant(
    name: string,
    latitude: Coord,
    longitude: Coord,
    city: string,
    priceRange: Option<string>,
    googlePlaceId: Option<string>)

  /** A row of the `lists` table. */
  datatype List = List(userId: Id, name: string)

  datatype SaveEvent = SaveEvent(
    userId: Id,
    source: string,
    sourceUrl: string,
    rawCaption: Option<string>,
    targetListId: Option<Id>,
    status: SaveEventStatus,
    errorMessage: Option<string>)

  /** A save event built with the model's defaults: source "instagram",
      status pending, no caption, no target list, no error message. */
  function NewSaveEvent(
    userId: Id,
    sourceUrl: string,
    source: string := "instagram",
    rawCaption: Option<string> := None,
    targetListId: Option<Id> := None,
    status: SaveEventStatus := Pending): SaveEvent
  {
    SaveEvent(userId, source, sourceUrl, rawCaption, targetListId, status, None)
  }

  /** A restaurant saved by a user. `listId` None means "Unsorted";
      `sourceEventId` is the save event that produced the row. */
  datatype UserRestaurant = UserRestaurant(
    userId: Id,
    restaurantId: Id,
    listId: Option<Id>,
    sourceEventId: Id)

  datatype Note = Note(userId: Id, restaurantId: Id, content: string)

  /** How an endpoint fails: an HTTPException it raises itself, or an
      IntegrityError from the database that nothing catches (HTTP 500). */
  datatype ApiError = HttpException(status: nat, detail: string) | IntegrityError

  datatype Result<T> = Ok(value: T) | Err(error: ApiError)
}

/**
 * The read-only endpoints (app/api/v1/endpoints/data.py): the home screen,
 * one restaurant, and the Google Maps deep link for a restaurant. They
 * write nothing, so they are functions of the database contents.
 */
module Data {
  import opened Models
  import opened InitialSchema

  const NotFound := HttpException(404, "Restaurant not found")

  // ---- GET /home ----

  /** The home screen: the user's lists and the user's rows in no list
      ("Unsorted"). */
  datatype Home = Home(lists: map<Id, List>, unsorted: map<Id, UserRestaurant>)

  function HomeData(db: Db, userId: Id): (h: Home)
    ensures forall k :: k in h.lists <==> k in db.lists && db.lists[k].userId == userId
    ensures forall k :: k in h.unsorted <==>
      k in db.userRestaurants && db.userRestaurants[k].userId == userId && db.userRestaurants[k].listId.None?
    ensures forall k :: k in h.lists ==> h.lists[k] == db.lists[k]
    ensures forall k :: k in h.unsorted ==> h.unsorted[k] == db.userRestaurants[k]
  {
    Home(
      map k | k in db.lists && db.lists[k].userId == userId :: db.lists[k],
      map k | k in db.userRestaurants && db.userRestaurants[k].userId == userId && db.userRestaurants[k].listId.None?
            :: db.userRestaurants[k])
  }

  /** Two databases show one user the same lists and the same rows. */
  predicate SameViewFor(a: Db, b: Db, userId: Id) {
    && (forall k :: k in a.lists && a.lists[k].userId == userId ==> k in b.lists && b.lists[k] == a.lists[k])
    && (forall k :: k in b.lists && b.lists[k].userId == userId ==> k in a.lists && a.lists[k] == b.lists[k])
    && (forall k :: k in a.userRestaurants && a.userRestaurants[k].userId == userId ==>
          k in b.userRestaurants && b.userRestaurants[k] == a.userRestaurants[k])
    && (forall k :: k in b.userRestaurants && b.userRestaurants[k].userId == userId ==>
          k in a.userRestaurants && a.userRestaurants[k] == b.userRestaurants[k])
  }

  /** The home screen depends on the user's own lists and rows only: what
      other users hold can neither appear in it nor change it. */
  lemma HomeShowsOnlyOwnRows(a: Db, b: Db, userId: Id)
    requires SameViewFor(a, b, userId)
    ensures HomeData(a, userId) == HomeData(b, userId)
  {
    var ha, hb := HomeData(a, userId), HomeData(b, userId);
    assert ha.lists == hb.lists;
    assert ha.unsorted == hb.unsorted;
  }

  // ---- GET /restaurants/{id} ----

  /** The restaurant with the id, or 404. */
  function FindRestaurant(restaurants: map<Id, Restaurant>, id: Id): (r: Result<Restaurant>)
    ensures r.Ok? <==> id in restaurants
    ensures r.Ok? ==> r.value == restaurants[id]
    ensures r.Err? ==> r.error == NotFound
  {
    if id in restaurants then Ok(restaurants[id]) else Err(NotFound)
  }

  // ---- POST /restaurants/{id}/export/google-maps ----

  const Scheme := "comgooglemaps://?q="
  const PlacePrefix := "place_id:"

  /** Where a Google Maps link points. */
  datatype Destination = Place(placeId: string) | Coordinates(latitude: string, longitude: string)

  /** The place when the restaurant has a non-empty place id, its
      coordinates otherwise. */
  function DestinationOf(r: Restaurant): Destination {
    if Truthy(r.googlePlaceId) then Place(r.googlePlaceId.value) else Coordinates(r.latitude, r.longitude)
  }

  /** The deep link for a restaurant. */
  function MapsUrl(r: Restaurant): string {
    if Truthy(r.googlePlaceId) then Scheme + PlacePrefix + r.googlePlaceId.value
    else Scheme + r.latitude + "," + r.longitude
  }

  /** The index of the first comma of s, if any. */
  function FirstComma(s: string): (r: Option<nat>)
    ensures r.Some? ==> r.value < |s| && s[r.value] == ',' && forall j :: 0 <= j < r.value ==> s[j] != ','
    ensures r.None? ==> forall j :: 0 <= j < |s| ==> s[j] != ','
  {
    if s == [] then None
    else if s[0] == ',' then Some(0)
    else match FirstComma(s[1..])
      case None => None
      case Some(i) => Some(i + 1)
  }

  function StartsWith(s: string, prefix: string): bool {
    |prefix| <= |s| && s[..|prefix|] == prefix
  }

  /** Reads a deep link back: a place id after "place_id:", or two
      coordinates separated by the first comma. */
  function ParseMapsUrl(url: string): Option<Destination> {
    if !StartsWith(url, Scheme) then None
    else
      var q := url[|Scheme|..];
      if StartsWith(q, PlacePrefix) then Some(Place(q[|PlacePrefix|..]))
      else match FirstComma(q)
        case None => None
        case Some(i) => Some(Coordinates(q[..i], q[i + 1..]))
  }

  /** The link names the restaurant's place when it has a non-empty place
      id and its coordinates otherwise: reading the link back gives exactly
      that destination. */
  lemma MapsUrlRoundTrip(r: Restaurant)
    ensures ParseMapsUrl(MapsUrl(r)) == Some(DestinationOf(r))
  {
    if Truthy(r.googlePlaceId) {
      PlaceUrlRoundTrip(r.googlePlaceId.value);
    } else {
      CoordinatesUrlRoundTrip(r.latitude, r.longitude);
    }
  }

  lemma PlaceUrlRoundTrip(placeId: string)
    ensures ParseMapsUrl(Scheme + PlacePrefix + placeId) == Some(Place(placeId))
  {
    var url := Scheme + PlacePrefix + placeId;
    assert url[..|Scheme|] == Scheme;
    var q := url[|Scheme|..];
    assert q == PlacePrefix + placeId;
    assert q[..|PlacePrefix|] == PlacePrefix;
  }

  /** A coordinate never starts like "place_id:" and holds no comma. */
  lemma CoordinatesUrlRoundTrip(lat: string, lng: string)
    requires IsFloatText(lat)
    ensures ParseMapsUrl(Scheme + lat + "," + lng) == Some(Coordinates(lat, lng))
  {
    var url := Scheme + lat + "," + lng;
    assert url[..|Scheme|] == Scheme;
    var q := url[|Scheme|..];
    assert q == lat + "," + lng;
    assert q[0] == lat[0] && lat[0] in "+-.0123456789e";
    assert !StartsWith(q, PlacePrefix) by {
      assert q[0] != PlacePrefix[0];
      assert |PlacePrefix| <= |q| ==> q[..|PlacePrefix|][0] == q[0];
    }
    assert FirstComma(q) == Some(|lat|) by {
      assert forall j :: 0 <= j < |lat| ==> q[j] == lat[j] && lat[j] in "+-.0123456789e";
      assert q[|lat|] == ',';
    }
    assert q[..|lat|] == lat;
    assert q[|lat| + 1..] == lng;
  }

  /** POST /restaurants/{id}/export/google-maps: 404 for an unknown id;
      otherwise a link that reads back as the restaurant's destination. */
  function ExportToGoogleMaps(restaurants: map<Id, Restaurant>, id: Id): (r: Result<string>)
    ensures r.Ok? <==> id in restaurants
    ensures r.Err? ==> r.error == NotFound
    ensures r.Ok? ==> ParseMapsUrl(r.value) == Some(DestinationOf(restaurants[id]))
  {
    if id !in restaurants then Err(NotFound)
    else
      MapsUrlRoundTrip(restaurants[id]);
      Ok(MapsUrl(restaurants[id]))
  }
}

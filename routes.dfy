/**
 * The HTTP handlers of the server: which status each request gets, what body it carries, and
 * what each handler does to the store. Bodies are modelled as the values they serialise.
 *
 * A query parameter is `None` when it was not given. Every request body has already been parsed
 * as JSON. The month of the weather request's date is a parameter.
 */
module Routes {
  import opened Wrappers
  import opened Schema
  import opened Storage
  import Weather

  /** What a handler sends. */
  datatype Body =
    | Message(key: string, text: string)   // `{ <key>: <text> }`
    | Invalid(errors: set<Path>)           // `{ message: "Invalid data", errors }`
    | WeatherBody(forecast: Weather.Forecast)
    | ListBody(list: PackingList)
    | ListsBody(lists: seq<PackingList>)
    | NoContent

  datatype Response = Response(status: int, body: Body)

  const MissingQuery := Message("error", "Destination and date are required")
  const NotFound := Message("message", "Packing list not found")

  /** A query parameter that is present and not empty. */
  predicate Present(q: Option<string>) { q.Some? && q.value != "" }

  /** `GET /api/weather`: refuses a missing or empty destination or date before computing anything,
      and otherwise answers with the historical forecast. */
  function WeatherEndpoint(destination: Option<string>, date: Option<string>, month: Weather.Month): (r: Response)
    ensures r.status == 400 <==> !Present(destination) || !Present(date)
    ensures r.status == 400 ==> r.body == MissingQuery
    ensures r.status != 400 ==>
      r.status == 200 && r.body == WeatherBody(Weather.Lookup(destination.value, date.value, month))
  {
    if !Present(destination) || !Present(date) then Response(400, MissingQuery)
    else Response(200, WeatherBody(Weather.Lookup(destination.value, date.value, month)))
  }

  /** The echoed destination of an answered weather request is the one asked for. */
  lemma WeatherEchoesQuery(destination: string, date: string, month: Weather.Month)
    requires destination != "" && date != ""
    ensures var r := WeatherEndpoint(Some(destination), Some(date), month);
      r.status == 200 && r.body.forecast.destination == destination && r.body.forecast.date == date
      && r.body.forecast.season == Weather.SeasonOf(month)
  {
  }

  /** `GET /api/packing-lists`: every stored list, in insertion order. */
  method GetAllLists(store: MemStorage) returns (r: Response)
    requires store.Valid()
    ensures r.status == 200 && r.body == ListsBody(store.Values())
  {
    var lists := store.GetAll();
    r := Response(200, ListsBody(lists));
  }

  /** `GET /api/packing-lists/:id`: the stored list, or 404. */
  method GetList(store: MemStorage, id: string) returns (r: Response)
    requires store.Valid()
    ensures r.status == 200 || r.status == 404
    ensures r.status == 200 <==> id in store.lists
    ensures r.status == 200 ==> r.body == ListBody(store.lists[id])
    ensures r.status == 404 ==> r.body == NotFound
  {
    var list := store.Get(id);
    if list.None? {
      return Response(404, NotFound);
    }
    r := Response(200, ListBody(list.value));
  }

  /** `POST /api/packing-lists`: a body the insert schema refuses is answered 400 with its issues and
      never reaches the store; otherwise the created list is answered 201. */
  method CreateList(store: MemStorage, body: Json, id: string, now: int) returns (r: Response)
    requires store.Valid() && id !in store.lists
    modifies store
    ensures store.Valid()
    ensures r.status == 400 || r.status == 201
    ensures ParseInsert(body).Failure? ==>
      r == Response(400, Invalid(ParseInsert(body).error))
      && store.lists == old(store.lists) && store.order == old(store.order)
    ensures ParseInsert(body).Success? ==>
      var created := Created(ParseInsert(body).value, id, now);
      && r == Response(201, ListBody(created))
      && store.lists == old(store.lists)[id := created] && store.order == old(store.order) + [id]
  {
    var parsed := ParseInsert(body);
    if parsed.Failure? {
      return Response(400, Invalid(parsed.error));
    }
    var created := store.Create(parsed.value, id, now);
    r := Response(201, ListBody(created));
  }

  /** `PUT /api/packing-lists/:id`: the body is checked against the partial schema first, so a refused
      body is 400 whether or not the id exists; then an unknown id is 404; otherwise the updated list. */
  method UpdateList(store: MemStorage, id: string, body: Json, now: int) returns (r: Response)
    requires store.Valid()
    modifies store
    ensures store.Valid()
    ensures r.status == 400 || r.status == 404 || r.status == 200
    ensures store.order == old(store.order)
    ensures ParsePatch(body).Failure? ==>
      r == Response(400, Invalid(ParsePatch(body).error)) && store.lists == old(store.lists)
    ensures ParsePatch(body).Success? && id !in old(store.lists) ==>
      r == Response(404, NotFound) && store.lists == old(store.lists)
    ensures ParsePatch(body).Success? && id in old(store.lists) ==>
      var updated := Patched(old(store.lists)[id], ParsePatch(body).value, now);
      r == Response(200, ListBody(updated)) && store.lists == old(store.lists)[id := updated]
  {
    var parsed := ParsePatch(body);
    if parsed.Failure? {
      return Response(400, Invalid(parsed.error));
    }
    var updated := store.Update(id, parsed.value, now);
    if updated.None? {
      return Response(404, NotFound);
    }
    r := Response(200, ListBody(updated.value));
  }

  /** `DELETE /api/packing-lists/:id`: 204 with no body when a list was removed, 404 otherwise. */
  method DeleteList(store: MemStorage, id: string) returns (r: Response)
    requires store.Valid()
    modifies store
    ensures store.Valid()
    ensures r.status == 204 <==> id in old(store.lists)
    ensures r.status == 204 ==> r.body == NoContent
    ensures r.status != 204 ==> r == Response(404, NotFound)
    ensures store.lists == old(store.lists) - {id} && store.order == Without(old(store.order), id)
  {
    var deleted := store.Delete(id);
    if !deleted {
      return Response(404, NotFound);
    }
    r := Response(204, NoContent);
  }

  /** A list answered 201 by a create is what a following fetch of its id answers 200 with. */
  method CreateThenFetch(store: MemStorage, body: Json, id: string, now: int) returns (created: Response, fetched: Response)
    requires store.Valid() && id !in store.lists
    modifies store
    ensures created.status == 201 ==> fetched == Response(200, created.body)
    ensures created.status == 400 ==> fetched == Response(404, NotFound)
  {
    created := CreateList(store, body, id, now);
    fetched := GetList(store, id);
  }

  /** After a delete, the id is not found by a fetch, an update or a second delete. */
  method DeleteThenAccess(store: MemStorage, id: string, body: Json, now: int)
    returns (fetched: Response, updated: Response, again: Response)
    requires store.Valid()
    modifies store
    ensures fetched == Response(404, NotFound)
    ensures ParsePatch(body).Success? ==> updated == Response(404, NotFound)
    ensures again == Response(404, NotFound)
  {
    var _ := DeleteList(store, id);
    fetched := GetList(store, id);
    updated := UpdateList(store, id, body, now);
    again := DeleteList(store, id);
  }
}

/**
 * The JSON API over the events table (`api/events`). Each action answers
 * with an HTTP status and the uniform response envelope; `ApiResult` carries
 * the status and what the envelope holds.
 */
module EventsApi {
  import opened Wrappers
  import opened EventModel
  import opened EventValidation
  import opened EventStore

  datatype ApiResult<T> =
    | Ok(data: T)                           // 200, envelope with data
    | Created(data: T)                      // 201, envelope with the stored event
    | ValidationFailed(errors: seq<string>)  // 400, "Validation failed" with the messages
    | IdMismatch                            // 400, "Event ID mismatch"
    | NotFound(id: int)                     // 404, "Event with ID {id} not found"
  {
    /** The HTTP status of the outcome: a success code exactly when the envelope carries data. */
    function StatusCode(): (code: int)
      ensures code in {200, 201, 400, 404}
      ensures code < 300 <==> this.Ok? || this.Created?
    {
      match this
      case Ok(_) => 200
      case Created(_) => 201
      case ValidationFailed(_) => 400
      case IdMismatch => 400
      case NotFound(_) => 404
    }
  }

  class EventsApiController {
    /** The events table, keyed by `Id`. */
    var events: map<int, Event>
    /** The value the identity column hands out next. */
    var nextId: int

    ghost predicate Valid()
      reads this
    {
      Keyed(events, nextId)
    }

    constructor ()
      ensures Valid() && events == map[]
    {
      events := map[];
      nextId := 1;
    }

    /**
     * `GET api/events?start=&end=`: every stored event in range, one entry
     * per key, ordered by start.
     */
    function GetEvents(start: Option<Ticks>, end: Option<Ticks>): (r: ApiResult<seq<Event>>)
      requires Valid()
      reads this
      ensures r.Ok? && r.StatusCode() == 200
      ensures SortedByStart(r.data)
      ensures forall e :: e in r.data <==> InRange(e, start, end) && exists k :: k in events && events[k] == e
      ensures |r.data| == |MatchingKeys(events, events.Keys, start, end)|
    {
      Ok(ListEvents(events, start, end))
    }

    /** `GET api/events/{id}`: the stored event, or 404 when there is none. */
    function GetEvent(id: int): (r: ApiResult<Event>)
      reads this
      ensures r.Ok? <==> id in events
      ensures r.Ok? ==> r.data == events[id]
      ensures !r.Ok? ==> r == NotFound(id) && r.StatusCode() == 404
    {
      if id in events then Ok(events[id]) else NotFound(id)
    }

    /**
     * `POST api/events`: an invalid event is answered with 400 and the
     * validator's messages and nothing is stored; a valid one is stored under
     * a fresh key, which becomes its `Id`, and answered with 201.
     */
    method CreateEvent(evt: Event) returns (r: ApiResult<Event>)
      requires Valid()
      modifies this
      ensures Valid()
      ensures Validate(evt) != [] ==>
        && r == ValidationFailed(Messages(Validate(evt)))
        && events == old(events) && nextId == old(nextId)
      ensures Validate(evt) == [] ==>
        && r.Created? && r.StatusCode() == 201
        && r.data.id !in old(events) && r.data.id > 0
        && r.data == evt.(id := r.data.id)
        && events == old(events)[r.data.id := r.data]
    {
      var failures := Validate(evt);
      if failures != [] {
        return ValidationFailed(Messages(failures));
      }
      var stored := evt.(id := nextId);
      events := events[nextId := stored];
      nextId := nextId + 1;
      r := Created(stored);
    }

    /**
     * `PUT api/events/{id}`: checks, in order, that the path id matches the
     * body's, that the event exists and that the body is valid; on success
     * the stored entry takes the body's seven editable fields.
     */
    method UpdateEvent(id: int, evt: Event) returns (r: ApiResult<Event>)
      requires Valid()
      modifies this
      ensures Valid() && nextId == old(nextId)
      ensures id != evt.id ==> r == IdMismatch && events == old(events)
      ensures id == evt.id && id !in old(events) ==> r == NotFound(id) && events == old(events)
      ensures id == evt.id && id in old(events) && Validate(evt) != [] ==>
        r == ValidationFailed(Messages(Validate(evt))) && events == old(events)
      ensures id == evt.id && id in old(events) && Validate(evt) == [] ==>
        && id in events && r == Ok(events[id])
        && TakesEditableFields(events[id], old(events)[id], evt)
        && OnlyEntryChanged(events, old(events), id)
        && events[id] == evt
    {
      if id != evt.id {
        return IdMismatch;
      }
      if id !in events {
        return NotFound(id);
      }
      var failures := Validate(evt);
      if failures != [] {
        return ValidationFailed(Messages(failures));
      }
      var existing := events[id];
      var updated := existing.(
        title := evt.title,
        description := evt.description,
        startDate := evt.startDate,
        endDate := evt.endDate,
        location := evt.location,
        category := evt.category,
        isAllDay := evt.isAllDay);
      events := events[id := updated];
      r := Ok(updated);
    }

    /** `DELETE api/events/{id}`: 404 when absent; otherwise the entry is removed and `{id}` returned. */
    method DeleteEvent(id: int) returns (r: ApiResult<int>)
      requires Valid()
      modifies this
      ensures Valid() && nextId == old(nextId)
      ensures id !in old(events) ==> r == NotFound(id) && events == old(events)
      ensures id in old(events) ==> r == Ok(id) && events == old(events) - {id}
    {
      if id !in events {
        return NotFound(id);
      }
      events := events - {id};
      r := Ok(id);
    }
  }

  /** Creating a valid event and then fetching it by the returned id gives the event back with that id. */
  method CreateThenGet(api: EventsApiController, evt: Event) returns (created: ApiResult<Event>, fetched: ApiResult<Event>)
    requires api.Valid() && Validate(evt) == []
    modifies api
    ensures created.Created? && created.data.id > 0
    ensures fetched == Ok(evt.(id := created.data.id))
  {
    created := api.CreateEvent(evt);
    fetched := api.GetEvent(created.data.id);
  }

  /** A path id that disagrees with the body's id is refused with 400 and changes nothing. */
  method UpdateWithMismatchedId(api: EventsApiController, evt: Event) returns (r: ApiResult<Event>)
    requires api.Valid() && evt.id == 7
    modifies api
    ensures r == IdMismatch && r.StatusCode() == 400
    ensures api.events == old(api.events)
  {
    r := api.UpdateEvent(5, evt);
  }

  /** Deleting an id that is not stored is answered with 404 and changes nothing. */
  method DeleteMissing(api: EventsApiController) returns (r: ApiResult<int>)
    requires api.Valid() && 999 !in api.events
    modifies api
    ensures r == NotFound(999) && r.StatusCode() == 404
    ensures api.events == old(api.events)
  {
    r := api.DeleteEvent(999);
  }
}

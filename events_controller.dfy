/**
 * The server-rendered pages over the events table. They validate the form
 * model with the view-model validator and answer with a page, a redirect to
 * the list or a bare 404.
 */
module EventsUi {
  import opened Wrappers
  import opened EventModel
  import opened EventViewModels
  import opened EventValidation
  import opened EventStore

  const CREATED_NOTICE: string := "Event created successfully!"
  const UPDATED_NOTICE: string := "Event updated successfully!"
  const DELETED_NOTICE: string := "Event deleted successfully!"

  datatype PageResult =
    | EventList(events: seq<Event>)                       // the list view
    | Form(model: EventViewModel, errors: seq<Failure>)   // the form, re-rendered with its errors
    | RedirectToIndex(notice: string)                     // redirect to the list with a success notice
    | NotFound                                            // bare 404

  class EventsController {
    /** The events table, keyed by `Id`. */
    var events: map<int, Event>
    /** The value the identity column hands out next. */
    var nextId: int

    ghost predicate Valid()
      reads this
    {
      Keyed(events, nextId)
    }

    constructor ()
      ensures Valid() && events == map[]
    {
      events := map[];
      nextId := 1;
    }

    /** `Index`: every stored event, one entry per key, ordered by start. */
    function Index(): (r: PageResult)
      requires Valid()
      reads this
      ensures r.EventList?
      ensures SortedByStart(r.events)
      ensures forall e :: e in r.events <==> exists k :: k in events && events[k] == e
      ensures |r.events| == |events|
    {
      var listed := ListEvents(events, None, None);
      assert MatchingKeys(events, events.Keys, None, None) == events.Keys;
      EventList(listed)
    }

    /** `Create` (GET): an empty form whose dates default to now and an hour from now. */
    function CreateForm(now: Ticks): (r: PageResult)
      ensures r.Form? && r.errors == []
      ensures r.model.title == "" && r.model.category == DEFAULT_CATEGORY
      ensures r.model.startDate == now && r.model.endDate == now + TICKS_PER_HOUR
    {
      Form(DefaultViewModel(now), [])
    }

    /**
     * `Create` (POST): a model the view-model validator rejects is shown
     * again with its failures and nothing is stored; otherwise `ToEvent` of
     * the model is stored under a fresh key.
     */
    method Create(model: EventViewModel) returns (r: PageResult)
      requires Valid()
      modifies this
      ensures Valid()
      ensures ValidateViewModel(model) != [] ==>
        && r == Form(model, ValidateViewModel(model))
        && events == old(events) && nextId == old(nextId)
      ensures ValidateViewModel(model) == [] ==>
        && r == RedirectToIndex(CREATED_NOTICE)
        && old(nextId) !in old(events)
        && events == old(events)[old(nextId) := model.ToEvent().(id := old(nextId))]
    {
      var failures := ValidateViewModel(model);
      if failures != [] {
        return Form(model, failures);
      }
      var evt := model.ToEvent();
      events := events[nextId := evt.(id := nextId)];
      nextId := nextId + 1;
      r := RedirectToIndex(CREATED_NOTICE);
    }

    /** `Edit` (GET): 404 for a missing or unknown id, otherwise the form filled from the stored event. */
    function EditForm(id: Option<int>): (r: PageResult)
      reads this
      ensures r.Form? <==> id.Some? && id.value in events
      ensures r.Form? ==> r.model == EventViewModel.FromEvent(events[id.value]) && r.errors == []
      ensures !r.Form? ==> r == NotFound
    {
      if id.None? then NotFound
      else if id.value !in events then NotFound
      else Form(EventViewModel.FromEvent(events[id.value]), [])
    }

    /**
     * `Edit` (POST): a route id that disagrees with the model's is a 404; the
     * model is validated before the id is looked up, so an invalid model is
     * shown again even when the id is unknown; on success the stored entry
     * takes the model's seven editable fields.
     */
    method Edit(id: int, model: EventViewModel) returns (r: PageResult)
      requires Valid()
      modifies this
      ensures Valid() && nextId == old(nextId)
      ensures id != model.id ==> r == NotFound && events == old(events)
      ensures id == model.id && ValidateViewModel(model) != [] ==>
        r == Form(model, ValidateViewModel(model)) && events == old(events)
      ensures id == model.id && ValidateViewModel(model) == [] && id !in old(events) ==>
        r == NotFound && events == old(events)
      ensures id == model.id && ValidateViewModel(model) == [] && id in old(events) ==>
        && r == RedirectToIndex(UPDATED_NOTICE)
        && id in events
        && TakesEditableFields(events[id], old(events)[id], model.ToEvent())
        && OnlyEntryChanged(events, old(events), id)
    {
      if id != model.id {
        return NotFound;
      }
      var failures := ValidateViewModel(model);
      if failures != [] {
        return Form(model, failures);
      }
      if id !in events {
        return NotFound;
      }
      var evt := events[id];
      var updated := evt.(
        title := model.title,
        description := model.description,
        startDate := model.startDate,
        endDate := model.endDate,
        location := model.location,
        category := model.category,
        isAllDay := model.isAllDay);
      events := events[id := updated];
      r := RedirectToIndex(UPDATED_NOTICE);
    }

    /** `Delete` (POST): 404 when absent; otherwise the entry is removed. */
    method Delete(id: int) returns (r: PageResult)
      requires Valid()
      modifies this
      ensures Valid() && nextId == old(nextId)
      ensures id !in old(events) ==> r == NotFound && events == old(events)
      ensures id in old(events) ==> r == RedirectToIndex(DELETED_NOTICE) && events == old(events) - {id}
    {
      if id !in events {
        return NotFound;
      }
      events := events - {id};
      r := RedirectToIndex(DELETED_NOTICE);
    }
  }

  /**
   * Because the pages use the weaker validator, they store a 25-hour timed
   * event that the API's validator would refuse.
   */
  method PagesStoreEventApiRefuses(ui: EventsController) returns (key: int)
    requires ui.Valid()
    modifies ui
    ensures key in ui.events && Validate(ui.events[key]) == [DurationOver24Hours]
  {
    var model := EventViewModel(0, "Offsite", None, TICKS_PER_DAY, 2 * TICKS_PER_DAY + TICKS_PER_HOUR, None, "Work", false);
    ViewModelAcceptsLongTimedEvent();
    key := ui.nextId;
    var r := ui.Create(model);
  }
}

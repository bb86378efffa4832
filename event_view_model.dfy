/**
 * The form-bound shape of an event used by the server-rendered pages, and its
 * field-for-field conversions to and from the entity.
 */
module EventViewModels {
  import opened Wrappers
  import opened EventModel

  datatype EventViewModel = EventViewModel(
    id: int,
    title: string,
    description: Option<string>,
    startDate: Ticks,
    endDate: Ticks,
    location: Option<string>,
    category: string,
    isAllDay: bool)
  {
    /** `ToEvent`: the entity carrying the same eight field values. */
    function ToEvent(): (e: Event)
      ensures e.id == id && e.title == title && e.description == description
      ensures e.startDate == startDate && e.endDate == endDate
      ensures e.location == location && e.category == category && e.isAllDay == isAllDay
    {
      Event(id, title, description, startDate, endDate, location, category, isAllDay)
    }

    /** `FromEvent`: the view model carrying the entity's eight field values. */
    static function FromEvent(e: Event): (vm: EventViewModel)
      ensures vm.id == e.id && vm.title == e.title && vm.description == e.description
      ensures vm.startDate == e.startDate && vm.endDate == e.endDate
      ensures vm.location == e.location && vm.category == e.category && vm.isAllDay == e.isAllDay
    {
      EventViewModel(e.id, e.title, e.description, e.startDate, e.endDate, e.location, e.category, e.isAllDay)
    }
  }

  /**
   * `new EventViewModel()` read at clock value `now`: the start defaults to
   * the current time and the end to one hour later.
   */
  function DefaultViewModel(now: Ticks): (vm: EventViewModel)
    ensures vm.title == "" && vm.category == DEFAULT_CATEGORY
    ensures vm.id == 0 && !vm.isAllDay && vm.description == None && vm.location == None
    ensures vm.startDate == now && vm.endDate - vm.startDate == TICKS_PER_HOUR
  {
    EventViewModel(0, "", None, now, now + TICKS_PER_HOUR, None, DEFAULT_CATEGORY, false)
  }

  /** Converting an entity to a view model and back gives the entity. */
  lemma EntityRoundTrip(e: Event)
    ensures EventViewModel.FromEvent(e).ToEvent() == e
  {
  }

  /** Converting a view model to an entity and back gives the view model. */
  lemma ViewModelRoundTrip(vm: EventViewModel)
    ensures EventViewModel.FromEvent(vm.ToEvent()) == vm
  {
  }

  /** Both conversions are injective: no two inputs are confused. */
  lemma ConversionsInjective(e1: Event, e2: Event, vm1: EventViewModel, vm2: EventViewModel)
    ensures EventViewModel.FromEvent(e1) == EventViewModel.FromEvent(e2) <==> e1 == e2
    ensures vm1.ToEvent() == vm2.ToEvent() <==> vm1 == vm2
  {
  }
}

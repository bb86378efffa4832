/**
 * The calendar's one entity, `Event`, with its declared field bounds and the
 * colour that the calendar view derives from its category.
 *
 * Timestamps are `DateTime` tick counts (units of 100 nanoseconds since
 * 0001-01-01T00:00); tick 0 is `default(DateTime)`.
 */
module EventModel {
  import opened Wrappers

  type Ticks = nat

  const TICKS_PER_HOUR: nat := 36_000_000_000
  const TICKS_PER_DAY: nat := 24 * TICKS_PER_HOUR

  /** Declared maximum lengths (data annotations and the database column sizes). */
  const TITLE_MAX_LENGTH: nat := 200
  const DESCRIPTION_MAX_LENGTH: nat := 1000
  const LOCATION_MAX_LENGTH: nat := 300
  const CATEGORY_MAX_LENGTH: nat := 50

  const DEFAULT_CATEGORY: string := "General"

  const WORK_COLOR: string := "#3b82f6"
  const PERSONAL_COLOR: string := "#10b981"
  const MEETING_COLOR: string := "#f59e0b"
  const HOLIDAY_COLOR: string := "#ef4444"
  const DEFAULT_COLOR: string := "#6366f1"

  /** A stored or submitted event; `description` and `location` may be null. */
  datatype Event = Event(
    id: int,
    title: string,
    description: Option<string>,
    startDate: Ticks,
    endDate: Ticks,
    location: Option<string>,
    category: string,
    isAllDay: bool)
  {
    /** The colour the calendar draws the event in; a function of the category alone. */
    function Color(): (c: string)
      ensures IsHexColor(c)
    {
      CategoryColor(category)
    }
  }

  predicate IsHexDigit(ch: char) {
    '0' <= ch <= '9' || 'a' <= ch <= 'f'
  }

  /** A CSS colour written `#rrggbb` in lower-case hexadecimal digits. */
  predicate IsHexColor(c: string) {
    && |c| == 7 && c[0] == '#'
    && IsHexDigit(c[1]) && IsHexDigit(c[2]) && IsHexDigit(c[3])
    && IsHexDigit(c[4]) && IsHexDigit(c[5]) && IsHexDigit(c[6])
  }

  /** The `Category switch` of the computed `Color` property. */
  function CategoryColor(category: string): (c: string)
    ensures IsHexColor(c)
  {
    match category
    case "Work" => WORK_COLOR
    case "Personal" => PERSONAL_COLOR
    case "Meeting" => MEETING_COLOR
    case "Holiday" => HOLIDAY_COLOR
    case _ => DEFAULT_COLOR
  }

  /** `new Event()`: every field at its initialiser or its type's default. */
  function NewEvent(): (e: Event)
    ensures e.title == "" && e.category == DEFAULT_CATEGORY
    ensures e.id == 0 && e.startDate == 0 && e.endDate == 0 && !e.isAllDay
    ensures e.description == None && e.location == None
  {
    Event(0, "", None, 0, 0, None, DEFAULT_CATEGORY, false)
  }

  /** The four named categories get the four listed colours. */
  lemma NamedCategoryColors()
    ensures CategoryColor("Work") == "#3b82f6"
    ensures CategoryColor("Personal") == "#10b981"
    ensures CategoryColor("Meeting") == "#f59e0b"
    ensures CategoryColor("Holiday") == "#ef4444"
    ensures CategoryColor("General") == "#6366f1"
  {
  }

  /**
   * The fallback colour is given exactly to the categories outside the four
   * named ones, so it never collides with a named category's colour.
   */
  lemma DefaultColorExactlyForOtherCategories(category: string)
    ensures CategoryColor(category) == DEFAULT_COLOR
        <==> category !in ["Work", "Personal", "Meeting", "Holiday"]
  {
  }

  /** The four named categories are drawn in four different colours. */
  lemma NamedColorsDistinct(a: string, b: string)
    requires a in ["Work", "Personal", "Meeting", "Holiday"]
    requires b in ["Work", "Personal", "Meeting", "Holiday"]
    ensures CategoryColor(a) == CategoryColor(b) <==> a == b
  {
  }

  /** Two events with the same category are drawn in the same colour. */
  lemma ColorDependsOnlyOnCategory(e1: Event, e2: Event)
    requires e1.category == e2.category
    ensures e1.Color() == e2.Color()
  {
  }
}

/**
 * The two FluentValidation rule sets: `EventValidator` for the entity, used
 * by the JSON API, and `EventViewModelValidator` for the form model, used by
 * the pages. Every rule runs (the default cascade mode continues after a
 * failure), so a result lists every violated rule once, in declaration order.
 */
module EventValidation {
  import opened Wrappers
  import opened EventModel
  import opened EventViewModels

  const VALID_CATEGORIES: seq<string> := ["Work", "Personal", "Meeting", "Holiday", "General"]

  /** One failed rule; the validator reports its message and the property it is attached to. */
  datatype Failure =
    | TitleRequired
    | TitleTooLong
    | TitleTooShort
    | DescriptionTooLong
    | StartRequired
    | StartNotBeforeEnd
    | EndRequired
    | EndNotAfterStart
    | LocationTooLong
    | CategoryRequired
    | CategoryNotListed
    | DurationOver24Hours
    | AllDayNotAtMidnight
  {
    function Message(): string {
      match this
      case TitleRequired => "Title is required"
      case TitleTooLong => "Title cannot exceed 200 characters"
      case TitleTooShort => "Title must be at least 3 characters"
      case DescriptionTooLong => "Description cannot exceed 1000 characters"
      case StartRequired => "Start date is required"
      case StartNotBeforeEnd => "Start date must be before end date"
      case EndRequired => "End date is required"
      case EndNotAfterStart => "End date must be after start date"
      case LocationTooLong => "Location cannot exceed 300 characters"
      case CategoryRequired => "Category is required"
      case CategoryNotListed => "Category must be one of: " + Join(", ", VALID_CATEGORIES)
      case DurationOver24Hours => "Non-all-day events cannot exceed 24 hours duration"
      case AllDayNotAtMidnight => "All-day events should start at midnight"
    }

    /** The property name the failure is reported under (`RuleFor`'s property name). */
    function Property(): string {
      match this
      case TitleRequired | TitleTooLong | TitleTooShort => "Title"
      case DescriptionTooLong => "Description"
      case StartRequired | StartNotBeforeEnd | AllDayNotAtMidnight => "StartDate"
      case EndRequired | EndNotAfterStart => "EndDate"
      case LocationTooLong => "Location"
      case CategoryRequired | CategoryNotListed => "Category"
      case DurationOver24Hours => ""
    }
  }

  /**
   * Every failure but the duration cap, which is attached to the whole event,
   * is reported under one of the event's fields.
   */
  lemma PropertyNamesAField(f: Failure)
    ensures f.Property() in ["Title", "Description", "StartDate", "EndDate", "Location", "Category", ""]
    ensures f.Property() == "" <==> f == DurationOver24Hours
  {
  }

  /** `string.Join`: the items with `separator` between each neighbouring pair. */
  function Join(separator: string, items: seq<string>): string
    decreases |items|
  {
    if |items| == 0 then ""
    else if |items| == 1 then items[0]
    else items[0] + separator + Join(separator, items[1..])
  }

  /** The first and twelfth characters of each failure's message. */
  function MessageKey(f: Failure): (char, char) {
    match f
    case TitleRequired => ('T', 'q')
    case TitleTooLong => ('T', 't')
    case TitleTooShort => ('T', 'b')
    case DescriptionTooLong => ('D', ' ')
    case StartRequired => ('S', 'i')
    case StartNotBeforeEnd => ('S', 'm')
    case EndRequired => ('E', ' ')
    case EndNotAfterStart => ('E', 's')
    case LocationTooLong => ('L', 'n')
    case CategoryRequired => ('C', ' ')
    case CategoryNotListed => ('C', 's')
    case DurationOver24Hours => ('N', ' ')
    case AllDayNotAtMidnight => ('A', 'n')
  }

  /** Reads a message key back as the failure it belongs to. */
  function FailureOfKey(key: (char, char)): Option<Failure> {
    match key
    case ('T', 'q') => Some(TitleRequired)
    case ('T', 't') => Some(TitleTooLong)
    case ('T', 'b') => Some(TitleTooShort)
    case ('D', ' ') => Some(DescriptionTooLong)
    case ('S', 'i') => Some(StartRequired)
    case ('S', 'm') => Some(StartNotBeforeEnd)
    case ('E', ' ') => Some(EndRequired)
    case ('E', 's') => Some(EndNotAfterStart)
    case ('L', 'n') => Some(LocationTooLong)
    case ('C', ' ') => Some(CategoryRequired)
    case ('C', 's') => Some(CategoryNotListed)
    case ('N', ' ') => Some(DurationOver24Hours)
    case ('A', 'n') => Some(AllDayNotAtMidnight)
    case _ => None
  }

  /**
   * Every message is at least twelve characters long and its first and
   * twelfth characters are its key; the helpers below split the thirteen
   * literals into small groups.
   */
  lemma MessageHasKey(f: Failure)
    ensures |f.Message()| > 11 && (f.Message()[0], f.Message()[11]) == MessageKey(f)
  {
    match f
    case TitleRequired | TitleTooLong | TitleTooShort => TitleMessagesHaveKey(f);
    case StartRequired | StartNotBeforeEnd | EndRequired | EndNotAfterStart => DateMessagesHaveKey(f);
    case DescriptionTooLong | LocationTooLong => TextMessagesHaveKey(f);
    case DurationOver24Hours => DurationMessageHasKey(f);
    case AllDayNotAtMidnight => MidnightMessageHasKey(f);
    case CategoryRequired | CategoryNotListed => CategoryMessagesHaveKey(f);
  }

  lemma TitleMessagesHaveKey(f: Failure)
    requires f.TitleRequired? || f.TitleTooLong? || f.TitleTooShort?
    ensures |f.Message()| > 11 && (f.Message()[0], f.Message()[11]) == MessageKey(f)
  {
    match f
    case TitleRequired => assert f.Message() == "Title is required";
    case TitleTooLong => assert f.Message() == "Title cannot exceed 200 characters";
    case TitleTooShort => assert f.Message() == "Title must be at least 3 characters";
    case _ =>
  }

  lemma DateMessagesHaveKey(f: Failure)
    requires f.StartRequired? || f.StartNotBeforeEnd? || f.EndRequired? || f.EndNotAfterStart?
    ensures |f.Message()| > 11 && (f.Message()[0], f.Message()[11]) == MessageKey(f)
  {
    match f
    case StartRequired => assert f.Message() == "Start date is required";
    case StartNotBeforeEnd => assert f.Message() == "Start date must be before end date";
    case EndRequired => assert f.Message() == "End date is required";
    case EndNotAfterStart => assert f.Message() == "End date must be after start date";
    case _ =>
  }

  lemma TextMessagesHaveKey(f: Failure)
    requires f.DescriptionTooLong? || f.LocationTooLong?
    ensures |f.Message()| > 11 && (f.Message()[0], f.Message()[11]) == MessageKey(f)
  {
    match f
    case DescriptionTooLong => assert f.Message() == "Description cannot exceed 1000 characters";
    case LocationTooLong => assert f.Message() == "Location cannot exceed 300 characters";
    case _ =>
  }

  lemma DurationMessageHasKey(f: Failure)
    requires f.DurationOver24Hours?
    ensures |f.Message()| > 11 && (f.Message()[0], f.Message()[11]) == MessageKey(f)
  {
    assert f.Message() == "Non-all-day " + "events cannot exceed 24 hours duration";
  }

  lemma MidnightMessageHasKey(f: Failure)
    requires f.AllDayNotAtMidnight?
    ensures |f.Message()| > 11 && (f.Message()[0], f.Message()[11]) == MessageKey(f)
  {
    assert f.Message() == "All-day events should start at midnight";
  }

  lemma CategoryMessagesHaveKey(f: Failure)
    requires f.CategoryRequired? || f.CategoryNotListed?
    ensures |f.Message()| > 11 && (f.Message()[0], f.Message()[11]) == MessageKey(f)
  {
    match f
    case CategoryRequired => assert f.Message() == "Category is required";
    case CategoryNotListed => assert f.Message() == "Category must be one of: " + Join(", ", VALID_CATEGORIES);
    case _ =>
  }

  /** Each key decodes to its own failure, so no two failures share a key. */
  lemma KeyDecodes(f: Failure)
    ensures FailureOfKey(MessageKey(f)) == Some(f)
  {
  }

  /** No two failures share a message text, so a client can tell them apart by message alone. */
  lemma MessageIdentifiesFailure(f: Failure, g: Failure)
    ensures f.Message() == g.Message() <==> f == g
  {
    MessageHasKey(f);
    MessageHasKey(g);
    KeyDecodes(f);
    KeyDecodes(g);
  }

  /** The characters `char.IsWhiteSpace` accepts. */
  predicate IsWhiteSpace(c: char) {
    || c == ' ' || ('\t' <= c <= '\r') || c == '\U{0085}' || c == '\U{00A0}' || c == '\U{1680}'
    || ('\U{2000}' <= c <= '\U{200A}') || c == '\U{2028}' || c == '\U{2029}' || c == '\U{202F}'
    || c == '\U{205F}' || c == '\U{3000}'
  }

  /**
   * What `NotEmpty` rejects on a string (`string.IsNullOrWhiteSpace`): a scan
   * that stops at the first character that is not white space.
   */
  function IsBlank(s: string): (b: bool)
    ensures b <==> forall i :: 0 <= i < |s| ==> IsWhiteSpace(s[i])
  {
    s == [] || (IsWhiteSpace(s[0]) && IsBlank(s[1..]))
  }

  /** `MaximumLength` on a nullable string: null always passes. */
  predicate WithinLength(s: Option<string>, max: nat) {
    s.None? || |s.value| <= max
  }

  function TitleFailures(title: string): seq<Failure> {
    (if IsBlank(title) then [TitleRequired] else [])
    + (if |title| > TITLE_MAX_LENGTH then [TitleTooLong] else [])
    + (if |title| < 3 then [TitleTooShort] else [])
  }

  function DescriptionFailures(description: Option<string>): seq<Failure> {
    if WithinLength(description, DESCRIPTION_MAX_LENGTH) then [] else [DescriptionTooLong]
  }

  function StartDateFailures(startDate: Ticks, endDate: Ticks): seq<Failure> {
    (if startDate == 0 then [StartRequired] else [])
    + (if startDate < endDate then [] else [StartNotBeforeEnd])
  }

  function EndDateFailures(startDate: Ticks, endDate: Ticks): seq<Failure> {
    (if endDate == 0 then [EndRequired] else [])
    + (if endDate > startDate then [] else [EndNotAfterStart])
  }

  function LocationFailures(location: Option<string>): seq<Failure> {
    if WithinLength(location, LOCATION_MAX_LENGTH) then [] else [LocationTooLong]
  }

  function CategoryFailures(category: string): seq<Failure> {
    (if IsBlank(category) then [CategoryRequired] else [])
    + (if category in VALID_CATEGORIES then [] else [CategoryNotListed])
  }

  /** Applied only when the event is not all-day; a negative duration passes. */
  function DurationFailures(isAllDay: bool, startDate: Ticks, endDate: Ticks): seq<Failure> {
    if !isAllDay && endDate - startDate > 24 * TICKS_PER_HOUR then [DurationOver24Hours] else []
  }

  /** Applied only when the event is all-day; only the start's time of day is checked. */
  function MidnightFailures(isAllDay: bool, startDate: Ticks): seq<Failure> {
    if isAllDay && startDate % TICKS_PER_DAY != 0 then [AllDayNotAtMidnight] else []
  }

  /**
   * The rule table written independently of the rule builders: whether the
   * event `e` breaks the rule behind failure `f`.
   */
  predicate Violates(f: Failure, e: Event) {
    match f
    case TitleRequired => IsBlank(e.title)
    case TitleTooLong => |e.title| > TITLE_MAX_LENGTH
    case TitleTooShort => |e.title| < 3
    case DescriptionTooLong => e.description.Some? && |e.description.value| > DESCRIPTION_MAX_LENGTH
    case StartRequired => e.startDate == 0
    case StartNotBeforeEnd => e.startDate >= e.endDate
    case EndRequired => e.endDate == 0
    case EndNotAfterStart => e.endDate <= e.startDate
    case LocationTooLong => e.location.Some? && |e.location.value| > LOCATION_MAX_LENGTH
    case CategoryRequired => IsBlank(e.category)
    case CategoryNotListed => e.category !in VALID_CATEGORIES
    case DurationOver24Hours => !e.isAllDay && e.endDate - e.startDate > 24 * TICKS_PER_HOUR
    case AllDayNotAtMidnight => e.isAllDay && e.startDate % TICKS_PER_DAY != 0
  }

  /** Declaration order of the rules, grouped by the property they are attached to. */
  const TITLE_RULES: seq<Failure> := [TitleRequired, TitleTooLong, TitleTooShort]
  const START_RULES: seq<Failure> := [StartRequired, StartNotBeforeEnd]
  const END_RULES: seq<Failure> := [EndRequired, EndNotAfterStart]
  const CATEGORY_RULES: seq<Failure> := [CategoryRequired, CategoryNotListed]

  /** The rules both validators declare, in declaration order. */
  const VIEW_MODEL_RULES: seq<Failure> :=
    TITLE_RULES + [DescriptionTooLong] + START_RULES + END_RULES + [LocationTooLong] + CATEGORY_RULES

  /** The entity validator declares the two conditional rules after the shared ones. */
  const EVENT_RULES: seq<Failure> := VIEW_MODEL_RULES + [DurationOver24Hours] + [AllDayNotAtMidnight]

  /** The failures among `rules` that `e` violates, keeping their order. */
  function ViolatedRules(rules: seq<Failure>, e: Event): (r: seq<Failure>)
    ensures forall f :: f in r <==> f in rules && Violates(f, e)
  {
    if rules == [] then []
    else (if Violates(rules[0], e) then [rules[0]] else []) + ViolatedRules(rules[1..], e)
  }

  /**
   * `EventValidator`: the failures of an entity, in rule order. It reports
   * exactly the rules of the table that the entity violates, in declaration
   * order, each once.
   */
  function Validate(e: Event): (r: seq<Failure>)
    ensures r == ViolatedRules(EVENT_RULES, e)
    ensures forall f :: f in r <==> Violates(f, e)
  {
    SharedRulesMatchTable(e);
    ViolatedRulesConcat(VIEW_MODEL_RULES + [DurationOver24Hours], [AllDayNotAtMidnight], e);
    ViolatedRulesConcat(VIEW_MODEL_RULES, [DurationOver24Hours], e);
    ViolatedSingleRule(DurationOver24Hours, e);
    ViolatedSingleRule(AllDayNotAtMidnight, e);
    EveryRuleDeclared();
    TitleFailures(e.title)
    + DescriptionFailures(e.description)
    + StartDateFailures(e.startDate, e.endDate)
    + EndDateFailures(e.startDate, e.endDate)
    + LocationFailures(e.location)
    + CategoryFailures(e.category)
    + DurationFailures(e.isAllDay, e.startDate, e.endDate)
    + MidnightFailures(e.isAllDay, e.startDate)
  }

  /**
   * `EventViewModelValidator`: the failures of a form model, in rule order.
   * It reports exactly the violated rules of the table, in declaration order,
   * except that it never applies the duration cap or the midnight start.
   */
  function ValidateViewModel(vm: EventViewModel): (r: seq<Failure>)
    ensures r == ViolatedRules(VIEW_MODEL_RULES, vm.ToEvent())
    ensures forall f :: f in r <==> f != DurationOver24Hours && f != AllDayNotAtMidnight && Violates(f, vm.ToEvent())
  {
    SharedRulesMatchTable(vm.ToEvent());
    SharedRulesAreTheUnconditionalOnes();
    TitleFailures(vm.title)
    + DescriptionFailures(vm.description)
    + StartDateFailures(vm.startDate, vm.endDate)
    + EndDateFailures(vm.startDate, vm.endDate)
    + LocationFailures(vm.location)
    + CategoryFailures(vm.category)
  }

  /** The message texts, as the API puts them in its error list. */
  function Messages(failures: seq<Failure>): (r: seq<string>)
    ensures |r| == |failures|
    ensures forall i :: 0 <= i < |r| ==> r[i] == failures[i].Message()
  {
    if failures == [] then [] else [failures[0].Message()] + Messages(failures[1..])
  }

  lemma {:induction false} ViolatedRulesConcat(a: seq<Failure>, b: seq<Failure>, e: Event)
    ensures ViolatedRules(a + b, e) == ViolatedRules(a, e) + ViolatedRules(b, e)
  {
    if a == [] {
      assert a + b == b;
    } else {
      assert (a + b)[0] == a[0];
      assert (a + b)[1..] == a[1..] + b;
      ViolatedRulesConcat(a[1..], b, e);
    }
  }

  lemma ViolatedSingleRule(f: Failure, e: Event)
    ensures ViolatedRules([f], e) == if Violates(f, e) then [f] else []
  {
  }

  lemma ViolatedPair(f: Failure, g: Failure, e: Event)
    ensures ViolatedRules([f, g], e)
         == (if Violates(f, e) then [f] else []) + (if Violates(g, e) then [g] else [])
  {
    assert [f, g] == [f] + [g];
    ViolatedRulesConcat([f], [g], e);
    ViolatedSingleRule(f, e);
    ViolatedSingleRule(g, e);
  }

  lemma TitleRulesMatchTable(e: Event)
    ensures ViolatedRules(TITLE_RULES, e) == TitleFailures(e.title)
  {
    assert TITLE_RULES == [TitleRequired, TitleTooLong] + [TitleTooShort];
    ViolatedRulesConcat([TitleRequired, TitleTooLong], [TitleTooShort], e);
    ViolatedPair(TitleRequired, TitleTooLong, e);
    ViolatedSingleRule(TitleTooShort, e);
  }

  lemma DateRulesMatchTable(e: Event)
    ensures ViolatedRules(START_RULES, e) == StartDateFailures(e.startDate, e.endDate)
    ensures ViolatedRules(END_RULES, e) == EndDateFailures(e.startDate, e.endDate)
  {
    ViolatedPair(StartRequired, StartNotBeforeEnd, e);
    ViolatedPair(EndRequired, EndNotAfterStart, e);
  }

  lemma OptionalTextRulesMatchTable(e: Event)
    ensures ViolatedRules([DescriptionTooLong], e) == DescriptionFailures(e.description)
    ensures ViolatedRules([LocationTooLong], e) == LocationFailures(e.location)
  {
  }

  lemma CategoryRulesMatchTable(e: Event)
    ensures ViolatedRules(CATEGORY_RULES, e) == CategoryFailures(e.category)
  {
    ViolatedPair(CategoryRequired, CategoryNotListed, e);
  }

  /** The shared rules, as the rule builders write them, follow the rule table in declaration order. */
  lemma SharedRulesMatchTable(e: Event)
    ensures ViolatedRules(VIEW_MODEL_RULES, e)
         == TitleFailures(e.title) + DescriptionFailures(e.description)
          + StartDateFailures(e.startDate, e.endDate) + EndDateFailures(e.startDate, e.endDate)
          + LocationFailures(e.location) + CategoryFailures(e.category)
  {
    TitleRulesMatchTable(e);
    DateRulesMatchTable(e);
    OptionalTextRulesMatchTable(e);
    CategoryRulesMatchTable(e);
    var r1 := TITLE_RULES + [DescriptionTooLong];
    var r2 := r1 + START_RULES;
    var r3 := r2 + END_RULES;
    var r4 := r3 + [LocationTooLong];
    ViolatedRulesConcat(TITLE_RULES, [DescriptionTooLong], e);
    ViolatedRulesConcat(r1, START_RULES, e);
    ViolatedRulesConcat(r2, END_RULES, e);
    ViolatedRulesConcat(r3, [LocationTooLong], e);
    ViolatedRulesConcat(r4, CATEGORY_RULES, e);
  }

  /** The entity validator declares a rule for every failure. */
  lemma EveryRuleDeclared()
    ensures forall f: Failure :: f in EVENT_RULES
  {
    forall f: Failure ensures f in EVENT_RULES {
      SharedRulesAreTheUnconditionalOnes();
    }
  }

  /** The rules both validators declare are all the rules except the two conditional ones. */
  lemma SharedRulesAreTheUnconditionalOnes()
    ensures forall f :: f in VIEW_MODEL_RULES <==> f != DurationOver24Hours && f != AllDayNotAtMidnight
  {
  }

  /** The invariants an accepted event satisfies, stated as one conjunction. */
  predicate RulesHold(e: Event) {
    && !IsBlank(e.title) && 3 <= |e.title| <= TITLE_MAX_LENGTH
    && WithinLength(e.description, DESCRIPTION_MAX_LENGTH)
    && 0 < e.startDate < e.endDate
    && WithinLength(e.location, LOCATION_MAX_LENGTH)
    && e.category in VALID_CATEGORIES
    && (!e.isAllDay ==> e.endDate - e.startDate <= 24 * TICKS_PER_HOUR)
    && (e.isAllDay ==> e.startDate % TICKS_PER_DAY == 0)
  }

  /** A listed category is never blank, so `NotEmpty` on the category adds nothing to the `Must` rule. */
  lemma ListedCategoriesNotBlank(c: string)
    requires c in VALID_CATEGORIES
    ensures !IsBlank(c)
  {
    assert !IsWhiteSpace(c[0]);
  }

  /** An entity is accepted exactly when every rule holds. */
  lemma ValidIffRulesHold(e: Event)
    ensures Validate(e) == [] <==> RulesHold(e)
  {
    if e.category in VALID_CATEGORIES {
      ListedCategoriesNotBlank(e.category);
    }
  }

  /** Blank, too short or too long titles are rejected; an empty title gets both the required and the minimum-length failure. */
  lemma BadTitleRejected(e: Event)
    ensures IsBlank(e.title) || |e.title| < 3 || |e.title| > TITLE_MAX_LENGTH ==> Validate(e) != []
    ensures e.title == "" ==> TitleRequired in Validate(e) && TitleTooShort in Validate(e)
  {
  }

  /** Start at or after end draws both ordering failures; a default start or end is "required". */
  lemma OrderingFailuresTogether(e: Event)
    ensures StartNotBeforeEnd in Validate(e) <==> e.startDate >= e.endDate
    ensures EndNotAfterStart in Validate(e) <==> e.startDate >= e.endDate
    ensures StartRequired in Validate(e) <==> e.startDate == 0
    ensures EndRequired in Validate(e) <==> e.endDate == 0
  {
  }

  /**
   * A null description or location always passes; a present one fails
   * exactly when it is over its cap.
   */
  lemma OptionalTextLimits(e: Event)
    ensures e.description.None? ==> DescriptionTooLong !in Validate(e)
    ensures e.location.None? ==> LocationTooLong !in Validate(e)
    ensures DescriptionTooLong in Validate(e) <==> e.description.Some? && |e.description.value| > 1000
    ensures LocationTooLong in Validate(e) <==> e.location.Some? && |e.location.value| > 300
  {
  }

  /**
   * A category passes exactly when it is one of the five listed names; a
   * blank one fails both category rules.
   */
  lemma CategoryMustBeListed(e: Event)
    ensures CategoryNotListed in Validate(e)
        <==> e.category !in ["Work", "Personal", "Meeting", "Holiday", "General"]
    ensures IsBlank(e.category) ==> CategoryRequired in Validate(e) && CategoryNotListed in Validate(e)
    ensures CategoryRequired !in Validate(e) && CategoryNotListed !in Validate(e) <==> e.category in VALID_CATEGORIES
  {
    if e.category in VALID_CATEGORIES {
      ListedCategoriesNotBlank(e.category);
    }
  }

  /** The 24-hour cap binds only events that are not all-day. */
  lemma DurationCapOnlyForTimedEvents(e: Event)
    ensures !e.isAllDay ==> (DurationOver24Hours in Validate(e) <==> e.endDate - e.startDate > 24 * TICKS_PER_HOUR)
    ensures e.isAllDay ==> DurationOver24Hours !in Validate(e)
  {
  }

  /** The midnight rule binds only all-day events and looks at the start alone. */
  lemma MidnightRuleOnlyForAllDayStarts(e: Event)
    ensures e.isAllDay ==> (AllDayNotAtMidnight in Validate(e) <==> e.startDate % TICKS_PER_DAY != 0)
    ensures !e.isAllDay ==> AllDayNotAtMidnight !in Validate(e)
  {
  }

  /**
   * For an all-day event the end's time of day is never checked: moving the
   * end to any other instant after the start leaves the verdict unchanged.
   */
  lemma AllDayEndTimeIgnored(e: Event, newEnd: Ticks)
    requires e.isAllDay && e.startDate < e.endDate && e.startDate < newEnd
    ensures Validate(e.(endDate := newEnd)) == Validate(e)
  {
  }

  /**
   * A form model the view-model validator accepts also passes the form
   * model's own data annotations: a non-blank title of at most 200
   * characters, description and location within 1000 and 300, and a
   * non-blank category.
   */
  lemma ViewModelAcceptedWithinAnnotations(vm: EventViewModel)
    requires ValidateViewModel(vm) == []
    ensures !IsBlank(vm.title) && |vm.title| <= TITLE_MAX_LENGTH
    ensures WithinLength(vm.description, DESCRIPTION_MAX_LENGTH)
    ensures WithinLength(vm.location, LOCATION_MAX_LENGTH)
    ensures !IsBlank(vm.category)
  {
  }

  /** An accepted entity fits the declared column sizes. */
  lemma AcceptedWithinDeclaredCaps(e: Event)
    requires Validate(e) == []
    ensures |e.title| <= TITLE_MAX_LENGTH && |e.category| <= CATEGORY_MAX_LENGTH
    ensures WithinLength(e.description, DESCRIPTION_MAX_LENGTH)
    ensures WithinLength(e.location, LOCATION_MAX_LENGTH)
  {
  }

  /**
   * The entity validator is the view-model validator followed by the two
   * conditional rules, so it accepts no more than the view-model validator.
   */
  lemma EntityValidatorExtendsViewModelValidator(vm: EventViewModel)
    ensures Validate(vm.ToEvent())
         == ValidateViewModel(vm)
          + DurationFailures(vm.isAllDay, vm.startDate, vm.endDate)
          + MidnightFailures(vm.isAllDay, vm.startDate)
    ensures Validate(vm.ToEvent()) == [] ==> ValidateViewModel(vm) == []
  {
  }

  /** A timed form model running 25 hours passes the view-model validator but not the entity validator. */
  lemma ViewModelAcceptsLongTimedEvent()
    ensures var vm := EventViewModel(0, "Offsite", None, TICKS_PER_DAY, 2 * TICKS_PER_DAY + TICKS_PER_HOUR, None, "Work", false);
      ValidateViewModel(vm) == [] && Validate(vm.ToEvent()) == [DurationOver24Hours]
  {
    var vm := EventViewModel(0, "Offsite", None, TICKS_PER_DAY, 2 * TICKS_PER_DAY + TICKS_PER_HOUR, None, "Work", false);
    assert !IsWhiteSpace(vm.title[0]);
    ListedCategoriesNotBlank(vm.category);
  }

  /** An all-day form model starting at 14:00 passes the view-model validator but not the entity validator. */
  lemma ViewModelAcceptsAfternoonAllDayEvent()
    ensures var vm := EventViewModel(0, "Offsite", None, TICKS_PER_DAY + 14 * TICKS_PER_HOUR, 2 * TICKS_PER_DAY, None, "Holiday", true);
      ValidateViewModel(vm) == [] && Validate(vm.ToEvent()) == [AllDayNotAtMidnight]
  {
    var vm := EventViewModel(0, "Offsite", None, TICKS_PER_DAY + 14 * TICKS_PER_HOUR, 2 * TICKS_PER_DAY, None, "Holiday", true);
    assert !IsWhiteSpace(vm.title[0]);
    ListedCategoriesNotBlank(vm.category);
  }

  /** A freshly constructed entity is rejected for its empty title and its default dates. */
  lemma NewEventRejected()
    ensures Validate(NewEvent())
         == [TitleRequired, TitleTooShort, StartRequired, StartNotBeforeEnd, EndRequired, EndNotAfterStart]
  {
    assert !IsBlank(DEFAULT_CATEGORY) by { assert !IsWhiteSpace(DEFAULT_CATEGORY[0]); }
  }

  /** 2025-01-01T00:00 in ticks. */
  const NEW_YEAR_2025: Ticks := 739_251 * TICKS_PER_DAY

  /** A half-hour work stand-up is accepted and drawn in the work colour. */
  lemma StandupAccepted()
    ensures var standup := Event(0, "Standup", None, NEW_YEAR_2025 + 9 * TICKS_PER_HOUR,
                                 NEW_YEAR_2025 + 9 * TICKS_PER_HOUR + TICKS_PER_HOUR / 2, None, "Work", false);
      Validate(standup) == [] && standup.Color() == "#3b82f6"
  {
    assert !IsWhiteSpace("Standup"[0]);
    ListedCategoriesNotBlank("Work");
  }

  /** An all-day event starting at 14:00 is rejected with one failure, reported under the start date. */
  lemma AfternoonAllDayEventRejected()
    ensures var e := Event(0, "Retreat", None, NEW_YEAR_2025 + 14 * TICKS_PER_HOUR,
                           NEW_YEAR_2025 + TICKS_PER_DAY, None, "Personal", true);
      Validate(e) == [AllDayNotAtMidnight] && Validate(e)[0].Property() == "StartDate"
  {
    assert !IsWhiteSpace("Retreat"[0]);
    ListedCategoriesNotBlank("Personal");
  }
}

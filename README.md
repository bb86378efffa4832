# Event calendar: validation and CRUD decisions, modelled in Dafny

This project models the core of a small ASP.NET Core calendar application.
That core has five parts:

- the `Event` entity and the colour the calendar derives from its category;
- the form-bound `EventViewModel` and its conversions to and from the entity;
- the two FluentValidation rule sets. `EventValidator` checks entities for the JSON API. `EventViewModelValidator` checks form models for the pages.
- the JSON API controller (`api/events`): list, get, create, update and delete, each answering with a status and a response envelope;
- the page controller: list, create, edit and delete through forms.

The Entity Framework table is modelled as a finite map from key to event,
`map<int, Event>`. Next to it is the counter the identity column draws new
keys from. Each controller is a class holding that map. Its state-changing
actions are methods with `modifies this`. Its read-only actions are functions
that read it.

Modules, one per source file plus two shared ones:

| file | module | source |
|---|---|---|
| wrappers.dfy | `Wrappers` | `Option`, standing for C# `null` and `Nullable<T>` |
| event.dfy | `EventModel` | Models/Event.cs |
| event_view_model.dfy | `EventViewModels` | Models/EventViewModel.cs |
| event_validator.dfy | `EventValidation` | Validators/EventValidator.cs |
| event_store.dfy | `EventStore` | what both controllers do with the table: keying, field copy, `Where`/`OrderBy` |
| events_api_controller.dfy | `EventsApi` | Controllers/Api/EventsApiController.cs |
| events_controller.dfy | `EventsUi` | Controllers/EventsController.cs |

Modelling choices:

- Timestamps are `DateTime` tick counts (100 ns units), as a `nat`. Tick 0 is `default(DateTime)`, which `NotEmpty` rejects. The time of day is the tick count modulo one day.
- `TotalHours <= 24` becomes a tick difference of at most 24 hours of ticks. A negative duration passes, as it does in the source.
- `NotEmpty` on a string rejects null, the empty string and whitespace-only strings. The whitespace set is that of `char.IsWhiteSpace`. `MaximumLength` lets null through.
- FluentValidation runs every validator of a rule even after one fails. So one input can draw several failures. An empty title in a JSON body gets both "Title is required" and "Title must be at least 3 characters". The pages differ, as "## Left out" says. A start at or after the end gets both ordering messages.
- A validation result is a sequence of `Failure` values in declaration order. Each `Failure` knows its message text and the property it is reported under. The API's error list is the sequence of message texts.
- Rule-builder code is checked against an independent rule table (`Violates`). The link is the contract of `Validate` and `ValidateViewModel`: each result equals the table filtered over the declared rules.
- A new key is the identity counter's next value, so it is never a key already in the map. The store invariant `Keyed` says every entry sits under its own `Id`.
- The clock read by `DateTime.Now` is a parameter (`now`).

## Model

| member | source | states |
|---|---|---|
| EventModel.CategoryColor | Models/Event.cs:34-41 | every category maps to a seven-character `#rrggbb` colour: `#` followed by six lower-case hexadecimal digits |
| EventModel.Event.Color | Models/Event.cs:34-41 | every event is drawn in a `#rrggbb` colour |
| EventModel.NamedCategoryColors | Models/Event.cs:34-40 | Work, Personal, Meeting and Holiday map to #3b82f6, #10b981, #f59e0b and #ef4444; the listed category General maps to the fallback #6366f1 |
| EventModel.DefaultColorExactlyForOtherCategories | Models/Event.cs:40 | a category gets the fallback colour exactly when it is none of the four named ones |
| EventModel.NamedColorsDistinct | Models/Event.cs:36-39 | the four named categories get four different colours |
| EventModel.ColorDependsOnlyOnCategory | Models/Event.cs:34-41 | two events with equal categories have equal colours |
| EventModel.NewEvent | Models/Event.cs:7-31 | a freshly constructed entity has an empty title, category General, null description and location, and default dates |
| EventViewModels.EventViewModel.ToEvent | Models/EventViewModel.cs:41-54 | the entity carries all eight fields of the model unchanged |
| EventViewModels.EventViewModel.FromEvent | Models/EventViewModel.cs:57-70 | the model carries all eight fields of the entity unchanged |
| EventViewModels.DefaultViewModel | Models/EventViewModel.cs:9-38 | a default form model has an empty title, category General, and runs from the clock reading to one hour later |
| EventViewModels.EntityRoundTrip | Models/EventViewModel.cs:41-70 | `FromEvent(e).ToEvent() == e` |
| EventViewModels.ViewModelRoundTrip | Models/EventViewModel.cs:41-70 | `FromEvent(vm.ToEvent()) == vm` |
| EventViewModels.ConversionsInjective | Models/EventViewModel.cs:41-70 | neither conversion maps two different inputs to the same output |
| EventValidation.ViolatedRules | Validators/EventValidator.cs:10-51 | the rules listed in the result are exactly those of the given list that the event violates |
| EventValidation.SharedRulesMatchTable | Validators/EventValidator.cs:12-34 | the six shared rule builders report, in declaration order, exactly the violated rules of the table |
| EventValidation.Validate | Validators/EventValidator.cs:10-51 | the entity validator reports exactly the rules of the table that the entity violates, in declaration order, each once: a failure is in the result if and only if its rule is broken |
| EventValidation.ValidateViewModel | Validators/EventValidator.cs:54-83 | the view-model validator reports exactly the violated rules of the table among the eleven it declares, in declaration order: a failure is in the result if and only if its rule is broken and it is neither the duration cap nor the midnight start |
| EventValidation.IsBlank | Validators/EventValidator.cs:12-13 | `NotEmpty` rejects a string exactly when every character of it is white space, the empty string included |
| EventValidation.PropertyNamesAField | Validators/EventValidator.cs:12-49 | every failure is reported under one of the event's fields, except the duration cap, which is attached to the whole event and reported under the empty property name |
| EventValidation.MessageIdentifiesFailure | Validators/EventValidator.cs:12-49 | no two failures share a message text, so each message in the error list names one rule |
| EventValidation.SharedRulesAreTheUnconditionalOnes | Validators/EventValidator.cs:54-83 | the view-model validator declares every rule except the duration cap and the midnight start |
| EventValidation.ListedCategoriesNotBlank | Validators/EventValidator.cs:8 | none of the five listed categories is blank |
| EventValidation.ValidIffRulesHold | Validators/EventValidator.cs:10-51 | an entity is accepted if and only if the title is non-blank and 3 to 200 long, description at most 1000 or null, start nonzero and before end, location at most 300 or null, category listed, a timed event at most 24 hours, and an all-day event starting at midnight |
| EventValidation.BadTitleRejected | Validators/EventValidator.cs:12-15 | a blank, too short or too long title is rejected; an empty title draws both "required" and "at least 3 characters" |
| EventValidation.OptionalTextLimits | Validators/EventValidator.cs:17-29 | null description or location always passes; a present one fails exactly when over 1000 or 300 characters |
| EventValidation.OrderingFailuresTogether | Validators/EventValidator.cs:20-26 | start not before end draws both ordering failures, and each ordering failure appears only then; a zero start or end draws its "required" failure, and only then |
| EventValidation.CategoryMustBeListed | Validators/EventValidator.cs:31-34 | the category passes both its rules exactly when it is one of the five listed names; a blank category fails both |
| EventValidation.DurationCapOnlyForTimedEvents | Validators/EventValidator.cs:36-42 | a timed event fails the duration rule exactly when it lasts more than 24 hours; an all-day event never does |
| EventValidation.MidnightRuleOnlyForAllDayStarts | Validators/EventValidator.cs:44-50 | an all-day event fails the midnight rule exactly when its start is not at midnight; a timed event never does |
| EventValidation.AllDayEndTimeIgnored | Validators/EventValidator.cs:44-50 | for an all-day event, moving the end to any instant after the start leaves the result unchanged: the end's time of day is never checked |
| EventValidation.ViewModelAcceptedWithinAnnotations | Models/EventViewModel.cs:9-35 | a form model the view-model validator accepts also meets the form model's annotations: non-blank title of at most 200, description at most 1000, location at most 300, non-blank category |
| EventValidation.AcceptedWithinDeclaredCaps | Models/Event.cs:9-29 | an accepted entity fits the declared caps: title 200, description 1000, location 300, category 50 |
| EventValidation.EntityValidatorExtendsViewModelValidator | Validators/EventValidator.cs:54-83 | the entity validator's result is the view-model validator's result followed by the duration and midnight failures, so the entity validator accepts no more |
| EventValidation.ViewModelAcceptsLongTimedEvent | Validators/EventValidator.cs:36-42 | a 25-hour timed model passes the view-model validator, and its entity fails only the duration cap |
| EventValidation.ViewModelAcceptsAfternoonAllDayEvent | Validators/EventValidator.cs:44-50 | an all-day model starting at 14:00 passes the view-model validator, and its entity fails only the midnight rule |
| EventValidation.NewEventRejected | Validators/EventValidator.cs:12-26 | a freshly constructed entity fails exactly the title-required, title-too-short, both date-required and both ordering rules, in that order |
| EventValidation.StandupAccepted | Validators/EventValidator.cs:10-51 | a half-hour Work event on 2025-01-01 at 09:00 is accepted and coloured #3b82f6 |
| EventValidation.AfternoonAllDayEventRejected | Validators/EventValidator.cs:44-50 | an all-day event starting at 14:00 is rejected with the one midnight failure, reported under StartDate |
| EventValidation.Messages | Controllers/Api/EventsApiController.cs:113 | the error list holds the message of each failure, in order |
| EventStore.Filtered | Controllers/Api/EventsApiController.cs:41-51 | the filter keeps exactly the stored events in range, one per matching key |
| EventStore.SortByStart | Controllers/Api/EventsApiController.cs:53 | the result is sorted ascending by start and is a permutation of the input |
| EventStore.InsertByStart | Controllers/Api/EventsApiController.cs:53 | inserting into a start-sorted sequence keeps it sorted and adds exactly that event |
| EventStore.ListEvents | Controllers/Api/EventsApiController.cs:41-53 | the listing is sorted by start and is a permutation of the in-range contents: no event ending before `start` or starting after `end`, every stored event in range, one entry per matching key |
| EventsApi.ApiResult.StatusCode | Controllers/Api/EventsApiController.cs:83-121 | every outcome maps to 200, 201, 400 or 404, and to a success code exactly when the envelope carries data |
| EventsApi.EventsApiController.GetEvents | Controllers/Api/EventsApiController.cs:35-65 | on a table whose entries sit under their own ids, answers 200 with the in-range stored events, sorted by start, one per matching key |
| EventsApi.EventsApiController.GetEvent | Controllers/Api/EventsApiController.cs:79-87 | answers 200 with the stored event when the id is present, and 404 otherwise |
| EventsApi.EventsApiController.CreateEvent | Controllers/Api/EventsApiController.cs:110-124 | an invalid event gets 400 with exactly the validator's messages and the table is unchanged; a valid one is stored under a key not previously present, with that key as its id, every other entry unchanged, and answered 201 |
| EventsApi.EventsApiController.UpdateEvent | Controllers/Api/EventsApiController.cs:148-182 | checks the id mismatch (400), then absence (404), then validity (400 with messages), leaving the table unchanged on each; on success the entry takes the body's seven editable fields, keeps its id, and no other entry changes |
| EventsApi.EventsApiController.DeleteEvent | Controllers/Api/EventsApiController.cs:204-215 | an absent id gets 404 and the table is unchanged; a present id is removed, exactly that key, and answered with `{id}` |
| EventsApi.CreateThenGet | Controllers/Api/EventsApiController.cs:110-124 | fetching a just-created valid event returns it with its assigned positive id and every other field as submitted |
| EventsApi.UpdateWithMismatchedId | Controllers/Api/EventsApiController.cs:148-152 | an update with path id 5 and body id 7 is answered 400 and changes nothing |
| EventsApi.DeleteMissing | Controllers/Api/EventsApiController.cs:204-209 | deleting the absent id 999 is answered 404 and changes nothing |
| EventsUi.EventsController.Index | Controllers/EventsController.cs:26-30 | on a table whose entries sit under their own ids, the list page shows every stored event, one per key, sorted by start |
| EventsUi.EventsController.CreateForm | Controllers/EventsController.cs:33-41 | the create form starts empty, category General, from now to an hour from now |
| EventsUi.EventsController.Create | Controllers/EventsController.cs:46-78 | a model the view-model validator rejects is shown again with its failures and nothing is stored; otherwise `ToEvent` of the model is stored under a fresh key |
| EventsUi.EventsController.EditForm | Controllers/EventsController.cs:81-96 | a null or unknown id gives 404; otherwise the form holds `FromEvent` of the stored event |
| EventsUi.EventsController.Edit | Controllers/EventsController.cs:101-162 | a route id different from the model's gives 404 (not 400); the model is validated before the lookup, so an invalid model is shown again even for an unknown id; an unknown id gives 404; on success the entry takes the model's seven editable fields and no other entry changes; the table is unchanged on every failure |
| EventsUi.EventsController.Delete | Controllers/EventsController.cs:167-189 | an absent id gives 404 and the table is unchanged; a present id is removed, exactly that key |
| EventsUi.PagesStoreEventApiRefuses | Controllers/EventsController.cs:49-65 | because the pages use the weaker validator, they store a 25-hour timed event that the API's validator refuses |

## Left out

- The 500 responses, logging and `try`/`catch` blocks. They react to store or I/O failures that this model of the table cannot produce.
- `DbUpdateConcurrencyException` handling in the page `Edit` (Controllers/EventsController.cs:143-153). Conflict resolution belongs to the database.
- Async, `SaveChangesAsync`, `FindAsync`, `ToListAsync` and `AnyAsync`. The map is read and written directly, and every action is one atomic step.
- `EventsController.EventExists` (Controllers/EventsController.cs:191-194). It is used only by the concurrency handler.
- `ModelState`, `TempData`, views, redirects, anti-forgery and routing. Outcomes are the `ApiResult` and `PageResult` datatypes. A success notice is kept as its text.
- `ModelState.IsValid` after the validator passes is taken to be true. The form model's data annotations it checks are implied by the view-model validator's rules (`ViewModelAcceptedWithinAnnotations`). Model-binding failures (unparseable input) are outside the model.
- The response envelope class (`ApiResponse`) is not part of this model. The "not found" message text is represented by the id it formats.
- EventsApi.EventsApiController.CreateEvent: a client-supplied non-zero `Id` is treated like zero, so the store always assigns a fresh key. No database provider does that. SQL Server refuses an explicit identity value, which ends in a 500 on this path. SQLite and the in-memory provider store the event under the given key. Neither behaviour is modelled.
- EventsApi.EventsApiController.CreateEvent: the automatic 400 of `[ApiController]` (Controllers/Api/EventsApiController.cs:10) is not modelled. That filter checks the data annotations of Models/Event.cs:9-28 before the action runs. A body with a blank or over-200 title, a description over 1000, a location over 300, or a blank or over-50 category is refused with a problem-details 400, not with `Messages(Validate(evt))`. The proved outcome holds only for bodies that pass the annotations, or when the filter is switched off in startup code, which is not part of this model.
- EventsApi.EventsApiController.UpdateEvent: the same `[ApiController]` check is not modelled. A body that fails the annotations gets 400 before the id or the table is looked at. So `PUT api/events/999` with body id 999 and an empty title gets 400 from the framework, where the model answers `NotFound(999)`. The proved check order holds only for bodies that pass the annotations.
- EventsUi.EventsController.Create: form binding turns an empty text field into null (`ConvertEmptyStringToNull`), and the model's title is a plain string, so it cannot be null. An empty Title field binds to a null title. `NotEmpty` fails on it, while `MaximumLength` and `MinimumLength` skip null. So the source shows the form again with "Title is required" alone. The model's nearest input, an empty title, gets `Form(model, [TitleRequired, TitleTooShort])`.
- EventsUi.EventsController.Edit: the same null binding applies. An empty Title field is shown again with "Title is required" alone, where the model reports `TitleRequired` and `TitleTooShort`. Empty Description, Location and Category fields draw the same failures in both, because their rules treat null and empty alike. An empty Description or Location is stored as null in the source; the model keeps whatever `Option` the form model holds.
- EventsUi.EventsController.Create: a non-zero `Id` in the form model is treated like zero too, so the store always assigns a fresh key. The provider's own handling of an explicit key is not modelled.
- Seed data (Data/AppDbContext.cs). It is built from the clock. Two seeded events have equal start and end, which `ValidIffRulesHold` shows the validator rejects.
- `DateTime.Now` is read more than once by the source's defaults. The model reads the clock once, as `now`.
- `TotalHours` is a `double`. The model compares exact tick differences. A difference of a few ticks over 24 hours could round differently in floating point.
- String lengths are counted in Dafny characters (Unicode scalar values). C# counts UTF-16 code units, so the two differ for characters outside the Basic Multilingual Plane.
- The `DateTime` upper bound (year 9999) and the 32-bit width of `Id` are not modelled. Ticks and keys are unbounded.
- Both controllers hold their own copy of the table. In the application they share one database.

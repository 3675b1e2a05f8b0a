# Home energy advisor, modelled in Dafny

The home energy advisor stores home profiles and returns energy-saving
recommendations for them:

- a profile is the size, the construction year, the heating system, the insulation and free-text notes;
- the recommendations come from a text-generation backend, or, when no API key is configured, from a fixed list of five tips.

This project models the core of the system and proves properties of it:

- **Advice provider** (`LlmService`):
  - the prompt built from a home;
  - the parser that turns the backend's free-text reply into a list of recommendations;
  - the fixed list;
  - the rule that chooses between the two providers.
- **Home store** (`HomeService`): the `homes` table as a map from primary key to row, with creation and lookup by id.
- **Request body and records** (`Schemas`, `Models`):
  - the creation payload and its field rules;
  - the response record;
  - the two enumerations and the row.
- **HTTP handlers** (`HomesApi`): the decisions of `POST /homes`, `GET /homes/{id}` and `POST /homes/{id}/advice` over the store and the provider.
- **Toast notifications** (`UseToast`): the frontend's shared toast list and its id counter, as a class.
- **CORS origins** (`Cors`): the comma-separated origin setting turned into a list.

`Text` and `Seqs` hold the Python string and list operations these rely on:
`strip`, `lstrip(chars)`, `splitlines`, `split`, `join`, integer formatting,
and list comprehensions with and without a filter.

Modelling decisions:

- **Whitespace and line breaks.** Python's whitespace (`str.isspace`) and line-break (`str.splitlines`) character sets are written out in full. A string is a sequence of code points, as in Python.
- **Year 0.** `home.year_built or 'Unknown'` treats the year 0 like a missing year. The model keeps this. Validation never admits 0, so stored homes never hit it.
- **Notes.** `if home.notes:` skips an empty string as well as a missing value.
- **Row ids.** The primary key is an `Integer` column the database fills in. The source itself promises only a fresh id of at least 1. The model assigns ids as SQLite, the default database, does: one more than the largest id so far. Rows are never deleted, so the store is modelled from an empty table as a counter of creations, and the ids 1 to n of the replay lemmas and the id 1 of `CreateThenFetch` follow from this choice.
- **The backend call.** The external provider's chat-completion request is a function parameter, `complete`, from model and prompt to a reply. The reply is either "raised" or a message whose content may be null.
- **The injected provider.** `get_advice` receives the provider by dependency injection, so `GetAdvice` takes the provider's `generate_advice` as a function `advise` from home to advice. `Advise(provider, complete)` is that function for the providers of `LlmService`; the lemmas that mention it specialise `GetAdvice` to them.
- **Call trace.** `get_advice` returns, besides the response, the sequence of calls it made (lookups and provider calls). Statements such as "the provider is never called" and "exactly one lookup" are made about that sequence.
- **Timers.** The toast timer is not run. `AddToast` returns the id a timer was scheduled for, or nothing. The timer firing is the explicit call `Dismiss(id)`.

## Model

| member | source | states |
|---|---|---|
| LlmService.BuildPrompt | backend/app/services/llm_service.py:15-28 | the prompt is the instruction, the format rule, a blank line, the heading and the size, year, heating and insulation lines, then a notes line only when there are non-empty notes, joined by newlines |
| LlmService.PromptYearUnknown | backend/app/services/llm_service.py:22 | the year line reads "- Year built: Unknown" exactly when the year is missing (or the falsy 0) |
| LlmService.PromptInsulationUnknown | backend/app/services/llm_service.py:24 | the insulation line reads "- Insulation: Unknown" exactly when no insulation level is recorded |
| LlmService.PromptNotesLine | backend/app/services/llm_service.py:26-27 | some line starts with "- Notes: " exactly when the notes are present and non-empty; it is then the ninth and last line and carries the notes verbatim, otherwise there are eight lines |
| LlmService.PromptEmbedsProfile | backend/app/services/llm_service.py:16-24 | the prompt starts with the fixed instructions and heading and carries the size in m² and the heating type's value for every home, the year built as its decimal digits whenever it is recorded and not 0, and the insulation level's value whenever one is recorded |
| LlmService.PromptSplitsIntoLines | backend/app/services/llm_service.py:28 | when the notes hold no line break, splitting the joined prompt into lines gives back exactly the prompt's lines |
| LlmService.ParseRecommendations | backend/app/services/llm_service.py:31-38 | the loop over the stripped, non-blank lines keeps each line with its leading list markers cut off when something is left, and returns the stripped text alone when nothing is |
| LlmService.RecommendationsNonEmpty | backend/app/services/llm_service.py:38 | the parser never returns an empty list |
| LlmService.RecommendationsFallback | backend/app/services/llm_service.py:38 | the result is the stripped text alone exactly when every non-blank line consists of list markers only; blank text gives [""] |
| LlmService.NonBlankLinesStripped | backend/app/services/llm_service.py:32 | every line the parser iterates over is non-empty and has whitespace at neither end |
| LlmService.RecommendationShape | backend/app/services/llm_service.py:32-37 | without the fallback every recommendation is non-empty, does not start with a list marker, does not end in whitespace, and is one of the lines with its markers cut off |
| LlmService.RecommendationsInOrder | backend/app/services/llm_service.py:32-37 | without the fallback the recommendations are the marker-stripped lines taken in order at exactly the positions where something is left after the markers, so they are at most as many as the non-blank lines |
| LlmService.RecommendationsKeepEvery | backend/app/services/llm_service.py:34-37 | every non-blank line with something left after its markers contributes that remainder to the recommendations |
| LlmService.ParseWrittenList | backend/app/services/llm_service.py:31-38 | a list written one marked item per line (markers such as "3. " or "• ") parses back to exactly its items, in order |
| LlmService.ParseNumberedExample | backend/tests/test_llm_service.py:21-23 | "1. First tip\n2. Second tip\n3. Third tip" parses to the three tips |
| LlmService.ParseBulletExample | backend/tests/test_llm_service.py:26-28 | "• One\n• Two" parses to "One" and "Two" |
| LlmService.DefaultSettingsProvider | backend/app/core/config.py:8-9 | under the default settings (no API key) the fixed provider answers; a key with the default model gives the external provider with "gpt-4o-mini" |
| LlmService.GetLlmProvider | backend/app/services/llm_service.py:81-86 | the external provider is chosen exactly when the API key is non-empty, carrying that key and the configured model; the fixed provider otherwise |
| LlmService.GenerateAdvice | backend/app/services/llm_service.py:62-72 | the external provider raises exactly when the backend call fails, and otherwise returns the parse of the reply's content (a null content parsed as ""); the fixed provider returns the five tips; a returned list is never empty |
| LlmService.MockAdviceIsFixed | backend/app/services/llm_service.py:44-51 | the fixed provider gives the same five recommendations for every home, whatever the backend would answer |
| Models.ParseHeatingType | backend/app/models/home.py:8-13 | a string names a heating type exactly when it is that member's value, and no member has a value that does not parse |
| Models.HeatingTypeMembers | backend/app/models/home.py:8-13 | the heating types are exactly five members with distinct values, and each member's value parses back to it |
| Models.ParseInsulationLevel | backend/app/models/home.py:16-20 | a string names an insulation level exactly when it is that member's value |
| Models.InsulationLevelMembers | backend/app/models/home.py:16-20 | the insulation levels are exactly four members with distinct values, and each member's value parses back to it |
| Schemas.Validate | backend/app/schemas/home.py:9-14 | a body is accepted exactly when every field meets its rule (size 1 to 10000, required; year 1800 to 2026 when given; a heating type member, required; an insulation member when given; notes of at most 2000 characters when given); a refusal names exactly the fields that break their rule; an accepted body gives a valid record that encodes back to the body |
| Schemas.ValidateEncoded | backend/app/schemas/home.py:9-14 | the encoding of a record passes validation exactly when the record is valid, and then validation gives the record back |
| HomeService.GetHomeById | backend/app/services/home_service.py:9-10 | the lookup yields a row of the table carrying the asked id, and yields nothing exactly when no row carries it |
| HomeService.ReplayRows | backend/app/models/home.py:26 | after n creations the table is keyed by id (so no two rows share an id), holds exactly the ids 1 to n, and row k holds the k-th request's profile |
| HomeService.ReplaySnoc | backend/app/services/home_service.py:21-22 | a creation adds exactly one row, under an id not yet in the table, and leaves every other row as it was |
| HomeService.LookupAfterCreations | backend/tests/test_api.py:28-44 | looking up the id of the k-th creation finds that creation's profile, and an id no creation returned finds nothing |
| HomeService.HomeStore.CreateHome | backend/app/services/home_service.py:13-23 | the new row copies the five profile fields, gets the next id (at least 1, not used before) and no update time, is added to the table with every other row unchanged, and is found by its id |
| HomeService.HomeStore.Lookup | backend/app/services/home_service.py:9-10 | the store finds exactly the ids it handed out, each with the profile it was created with |
| HomesApi.GetHome | backend/app/api/homes.py:25-33 | an id below 1 is refused with 422; an id no row carries gives 404; otherwise the response is the row with that id |
| HomesApi.GetAdvice | backend/app/api/homes.py:36-53 | an id below 1 gives 422 with no call made; otherwise the first call is the lookup and any later call asks the provider about the home found; a missing home gives 404 with the provider never asked; the response is 503 with the LLM_UNAVAILABLE detail exactly when the provider raised; a success carries exactly the provider's list |
| HomesApi.AdviceUnavailableIff | backend/app/api/homes.py:45-53 | the response is 503 exactly when the provider was asked, as the second call, and raised |
| HomesApi.AdviceLooksUpOnce | backend/app/api/homes.py:42 | an advice request with a valid id makes exactly one lookup |
| HomesApi.AdviceNeverEmpty | backend/app/api/homes.py:46-47 | a successful advice response never carries an empty list, whichever provider answers |
| HomesApi.MockAdviceForExistingHome | backend/tests/test_api.py:52-65 | with the fixed provider, advice on a stored home is a success with the five tips |
| HomesApi.CreateHomeEndpoint | backend/app/api/homes.py:18-22 | a body breaking its rules gives 422 naming the fields and leaves the store untouched; otherwise one creation is recorded, and the response has the next id, describes the request's profile, and is what reading that id returns |
| HomesApi.CreateThenFetch | backend/tests/test_api.py:28-44 | on a fresh store, creating a home gives id 1 and the request's profile, reading id 1 gives the same record, and reading another id gives 404 |
| HomesApi.CreateExample | backend/tests/test_api.py:7-25 | the example body (120 m², 1995, GAS, PARTIAL, a note) validates to exactly that record |
| HomesApi.InvalidIdExample | backend/tests/test_api.py:47-49 | id 0 gives 422 from both handlers, before any lookup |
| UseToast.RemovedMembers | frontend/src/composables/useToast.ts:25-27 | after removal a toast is in the list exactly when it was there before and carries a different id |
| UseToast.RemovedKeepsOrder | frontend/src/composables/useToast.ts:26 | the toasts left keep their original relative order |
| UseToast.RemoveAbsent | frontend/src/composables/useToast.ts:26 | removing an id no toast carries leaves the list unchanged |
| UseToast.RemoveIdempotent | frontend/src/composables/useToast.ts:26 | removing an id twice is the same as removing it once |
| UseToast.RemovedIdsIncreasing | frontend/src/composables/useToast.ts:12-17 | removal keeps toast ids strictly increasing along the list, so unique |
| UseToast.EffectiveDuration | frontend/src/composables/useToast.ts:13-15 | a left-out duration is 4000 ms, a given one is used as it is |
| UseToast.ToastQueue.constructor | frontend/src/composables/useToast.ts:11-12 | the list starts empty and the counter at 0 |
| UseToast.ToastQueue.AddToast | frontend/src/composables/useToast.ts:15-23 | appends exactly one toast, with the current counter value as id, keeping the others in order; increments the counter; keeps ids increasing and below the counter; schedules a dismissal for that id exactly when the effective duration is positive |
| UseToast.ToastQueue.RemoveToast | frontend/src/composables/useToast.ts:25-27 | the list becomes the old list without the toasts carrying the id; the counter is unchanged; ids stay increasing |
| UseToast.ToastQueue.Dismiss | frontend/src/composables/useToast.ts:19-21 | a timer running out has the same effect as removing its toast's id |
| UseToast.ToastQueue.ShowSuccess | frontend/src/composables/useToast.ts:32-33 | adds a toast of type success, as AddToast does |
| UseToast.ToastQueue.ShowError | frontend/src/composables/useToast.ts:34-35 | adds a toast of type error, as AddToast does |
| UseToast.ToastQueue.ShowWarning | frontend/src/composables/useToast.ts:36-37 | adds a toast of type warning, as AddToast does |
| UseToast.ToastQueue.ShowInfo | frontend/src/composables/useToast.ts:38-39 | adds a toast of type info, as AddToast does |
| UseToast.ShowAndDismiss | frontend/src/composables/useToast.ts:15-27 | two toasts shown, then the first one's timer running out, leave only the second, with id 1; a duration of 0 schedules no timer |
| Cors.AllowOriginsClean | backend/app/main.py:17 | every allowed origin is non-blank, equals its own trimmed form, and holds no comma |
| Cors.AllowOriginsInOrder | backend/app/main.py:17 | the comma-separated pieces make up the whole setting; the origins are the trimmed pieces taken in order at exactly the pieces that are not blank, so at most as many |
| Cors.AllowOriginsKeepEvery | backend/app/main.py:17 | every piece that is not blank once trimmed is an allowed origin |
| Cors.AllowOriginsOfJoin | backend/app/main.py:17 | clean origins written comma-separated parse back to exactly those origins |
| Cors.DefaultOrigins | backend/app/core/config.py:10 | the default setting "http://localhost:3000" allows exactly that one origin |

## Left out

- The chat-completion request is not modelled: the OpenAI client, the message layout, the sampling temperature 0.3 and access to `choices[0]`. It is a network call into a foreign library. Its result is the `complete` parameter, and any exception it raises, including a reply without choices, is `CallFailed`.
- The cached client (`_cached_openai_client`, `lru_cache`) holds no logic beyond reusing one object.
- The abstract `LLMProvider` class is not a separate entity. The two implementations are the constructors of `Provider`.
- Configuration loading is not modelled (`Settings`, the environment and the `.env` file). The API key, the model name and the CORS setting are parameters.
- FastAPI and pydantic machinery is not modelled: routing, dependency injection, JSON decoding and `model_validate`.
  - Pydantic's lax coercion (for example "120" accepted as 120) is not modelled. A body field is either missing or null (`None`) or has the right type.
  - The wording of the error messages in `app.core.messages` is not part of this model.
- The database session is not modelled: `db.commit()`, rollback, the connection and the migrations.
  - Timestamps are opaque natural numbers supplied by the caller.
  - `updated_at` is never set, because nothing in the system updates a row.
- Logging of provider failures is not modelled.
- Concurrent requests are not modelled. Each handler runs against one store state.
- HomeService.ReplayRows: ids are modelled as SQLite assigns them, one more than the largest so far. On PostgreSQL the `Integer` primary key draws from a sequence, and a rolled-back insert leaves a gap, so ids need not be 1 to n there. The same holds for the id 1 promised by `HomesApi.CreateThenFetch`.
- HomesApi.GetHome: a failing database lookup is not modelled. In the source an exception from `get_home_by_id` makes FastAPI answer 500. For example, SQLite cannot bind an id beyond 64 bits. The model answers 404 there.
- HomesApi.GetAdvice: the same failing lookup answers 500 in the source and 404 in the model.
- HomesApi.CreateHomeEndpoint: a failing `db.flush()` or `db.commit()` is not modelled. The source answers 500 there; the model always creates the row.
- UseToast.ToastQueue.AddToast: the counter is an unbounded integer. In the source `nextId` is a JavaScript number, so from 2^53 on `nextId++` no longer changes it and ids repeat, which breaks the increasing-ids invariant. The model does not capture this.
- JavaScript number semantics for `duration` are reduced to integers: floats, NaN and negative zero are not modelled. `setTimeout` timing is replaced by the explicit `Dismiss` call.
- Vue reactivity (`ref`) and the `useToast()` accessor object themselves are not modelled. Its `remove` entry is `RemoveToast`.
- Lone surrogate code points are not modelled, because Dafny's `char` is a Unicode scalar value.
- The `ge=1` check on the path parameter happens in FastAPI before the handler body runs. The model performs it as the first step of each handler, with the same outcome, so nothing of it is lost.

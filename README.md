# edx-search query construction and result post-processing, in Dafny

This project models the business logic of edx-search's `search/api.py`. It covers two operations.

- **Content search** (`perform_search`). It takes the field, filter and exclude dictionaries that the filter generator makes for a user and course. It looks up the content search engine and fails with `NoSearchEngineError` when there is none. It runs a string search. Then it rewrites each hit's `data` through the result processor, drops the hits whose new `data` is `None`, and records how many it dropped under `access_denied_count`.
- **Course discovery search** (`course_discovery_search`). It keeps only the `org` field of the generator's defaults and lets the caller's field dictionary override it. It pops the reserved `estatus` key and turns it into `start`/`end` date ranges and an `invitation_only` flag, and sets `exclude["invitation_only"] = False`. It adds `enrollment_start` unless a setting turns that off. Finally it looks up the course-info engine and runs a full search with a fixed `enrollment_end` filter and the configured aggregations.

Modules (one per file):

- `Wrappers` (`wrappers.dfy`): `Option` and `Result`.
- `SearchTypes` (`search_types.dfy`): the data.
  - `Value` is a dictionary value. Its `Null` is Python's `None`.
  - `DateRange` holds two optional bounds.
  - `Hit`, `EngineResponse` and the two query records describe what goes to and comes back from an engine.
  - `Collaborators` holds the filter generator, the engine lookup and the result processor as uninterpreted functions.
  - `Settings` holds the Django settings the API reads. A `None` field is a setting that is not defined.
  - `ClockReadings` holds the three `datetime.utcnow()` readings.
  - `SearchError` lists the two exceptions.
- `Tokens` (`tokens.dfy`): Python's `str.split()` with no separator. It is proved equivalent to "the word stands alone between whitespace".
- `ResultProcessing` (`result_processing.dfy`): the post-processing loop. It is specified by the functions `Rewrite`, `Visible` and `DeniedCount`, and lemmas show that it is an order-preserving selection.
- `SearchApi` (`search_api.dfy`): the settings lookups, the default aggregations, `PerformSearch`, and the discovery search with its status step.

Each of the two search methods returns a ghost `sent`. It holds the query handed to the engine, or `None` when no search call is made. The contracts use it to say what the engine receives, and that it receives nothing when the lookup fails.

Behaviours of the code worth knowing:

- With the enrollment-start filtering turned off, the code leaves any caller-supplied `enrollment_start` in the field dictionary. The key is absent only when nobody supplied it.
- The code calls `status_value.split()` after the date branch. An `estatus` value that is not a string therefore raises `AttributeError` before the engine is looked up. The model reports this as `SearchError.NonTextStatus`.
- A combined status such as `"ongoing invitation_only"` sets the `invitation_only` flag but adds no `start` or `end` range. The date branch compares the whole status for equality (search/api.py:102-108), while the flag test splits it into tokens (search/api.py:111).

## Model

| member | source | states |
|---|---|---|
| `Tokens.LeadingWordLength` | search/api.py:111 | the length of the leading non-whitespace run: every character before it is not whitespace, and the next one (if any) is whitespace |
| `Tokens.Split` | search/api.py:111 | every token of `str.split()` is non-empty and contains no whitespace |
| `Tokens.WordSplitsToItself` | search/api.py:111 | a non-empty word without whitespace splits into exactly itself, so testing `status == "invitation_only"` before the token test adds nothing |
| `Tokens.InSplitIff` | search/api.py:111 | a non-empty word without whitespace is a token of `s.split()` if and only if it occurs in `s` with whitespace or a string end on both sides |
| `ResultProcessing.Rewrite` | search/api.py:76-77 | rewriting keeps the number and order of hits and each hit's metadata; each hit's `data` becomes the processor's output for it |
| `ResultProcessing.Visible` | search/api.py:80 | the kept hits are hits of the input, none with `None` as `data`, and there are no more of them than input hits |
| `ResultProcessing.DeniedCount` | search/api.py:79 | the count is at most the number of hits, and it is 0 exactly when no hit has `None` as `data` |
| `ResultProcessing.ProcessResults` | search/api.py:76-80 | the loop that rewrites each hit's `data` in place leaves exactly the hits whose processed `data` is not `None` and counts the rest; kept plus denied equals the number of engine hits |
| `ResultProcessing.VisiblePlusDenied` | search/api.py:79-80 | every hit is either kept or counted in `access_denied_count`, so the two sizes add up to the input length |
| `ResultProcessing.VisibleIsOrderedSelection` | search/api.py:80 | the kept list is the hits at strictly increasing positions (no reordering, no duplicates), and a position is kept exactly when its `data` is not `None` |
| `ResultProcessing.PostProcessingKeepsProcessedHits` | search/api.py:76-80 | each kept hit is an engine hit, in engine order, with the same metadata and with the processor's non-`None` output as `data`; a hit is dropped exactly when the processor returns `None` for it |
| `ResultProcessing.UnchangedDataRoundTrip` | search/api.py:76-80 | when the processor hands every (non-`None`) payload back unchanged, the results are the engine's hits exactly and `access_denied_count` is 0 |
| `SearchApi.CourseDiscoveryFilterFields` | search/api.py:13-20 | the `COURSE_DISCOVERY_FILTERS` setting when defined, else `["org", "modes", "language"]` |
| `SearchApi.EmptyBucketsFor` | search/api.py:32 | the default aggregation map has a key exactly for each filter field, and each maps to an empty dictionary |
| `SearchApi.CourseDiscoveryAggregations` | search/api.py:23-33 | the `COURSE_DISCOVERY_AGGREGATIONS` setting when defined, else one empty entry per discovery filter field and nothing else |
| `SearchApi.ContentIndexName` | search/api.py:60-62 | the `COURSEWARE_CONTENT_INDEX_NAME` setting when defined, else `courseware_content` |
| `SearchApi.InfoIndexName` | search/api.py:117-119 | the `COURSEWARE_INFO_INDEX_NAME` setting when defined, else `course_info` |
| `SearchApi.SkipsEnrollmentStart` | search/api.py:114 | enrollment-start filtering is skipped exactly when `SEARCH_SKIP_ENROLLMENT_START_DATE_FILTERING` is defined and true; undefined means not skipped |
| `SearchApi.PerformSearch` | search/api.py:44-82 | fails with `NoSearchEngine` and makes no search call exactly when the content index name resolves to no engine; otherwise sends the generator's three dictionaries with the term and pagination, returns only the processed visible hits with `access_denied_count` set in the response, and kept plus denied equals the number of engine hits |
| `SearchApi.MergedFields` | search/api.py:89-95 | before the status step, the field dictionary holds the caller's keys with the caller's values, plus the provider's `org` (with the provider's value) when the caller does not set it, and no other key |
| `SearchApi.AddStatusDates` | search/api.py:102-108 | `ongoing` sets `start` = (None, now) and `end` = (now, None); `upcoming` sets only `start` = (now, None); `finished` sets only `end` = (None, now); any other value changes nothing; no other key changes |
| `SearchApi.ApplyStatus` | search/api.py:98-112 | fails exactly when `estatus` is present and not a string; otherwise `estatus` is removed, the date ranges and the invitation flag follow the status, every other key is unchanged; when `estatus` is present the exclude dictionary gets `invitation_only = False`, and otherwise it is left exactly as it was |
| `SearchApi.InvitationOnly` | search/api.py:111 | the status asks for invitation-only courses exactly when `invitation_only` is one of its whitespace-separated tokens (the equality test is subsumed) |
| `SearchApi.AddInvitationFlag` | search/api.py:110-112 | the flag `invitation_only = True` is written exactly when the status is `invitation_only` or one of its whitespace-separated tokens is; otherwise the dictionary is unchanged |
| `SearchApi.StatusAppliedWithout` | search/api.py:98-112 | the status step neither reads nor writes keys outside `estatus`, `start`, `end` and `invitation_only`: dropping any other key from both sides keeps the step's result |
| `SearchApi.CourseDiscoverySearch` | search/api.py:85-133 | fails with `NonTextStatus` exactly when `estatus` is not a string; fails with `NoSearchEngine` and makes no search call exactly when otherwise the course-info engine is missing; else returns the engine's response unmodified for a query whose filter is exactly `{enrollment_end: (now, None)}`, whose aggregations are the configured ones, whose exclude dictionary is the provider's with `invitation_only = False` written into it when `estatus` was given and the provider's unchanged otherwise, whose fields are the status step applied to the merged dictionary, and whose `enrollment_start` is (None, now) unless the skip setting is on (then it is whatever the merged dictionary had) |
| `SearchApi.InvitationOnlyIff` | search/api.py:111-112 | a status asks for invitation-only courses exactly when `invitation_only` stands alone in it between whitespace or string ends |
| `SearchApi.CombinedStatusIsInvitationOnly` | search/api.py:102-112 | `"ongoing invitation_only"` asks for invitation-only courses yet equals none of `ongoing`, `upcoming`, `finished` |
| `SearchApi.CombinedStatusSetsOnlyTheFlag` | search/api.py:102-112 | with status `"ongoing invitation_only"` the flag is set and `start`/`end` keep their merged values |
| `SearchApi.NoStatusNoChange` | search/api.py:98-112 | without an `estatus` key the status step leaves the field dictionary exactly as it was |

## Left out

- Logging calls (search/api.py:92-93, 96, 100, 122) have no effect on behaviour and are not modelled.
- The search engine backend (indexing, ranking, network I/O), the filter generator and the result processor are uninterpreted functions. The sources of `SearchFilterGenerator`, `SearchEngine`, `SearchResultProcessor` and `DateRange` are not part of this model. Exceptions raised inside them are not modelled: the functions are total.
- `datetime.utcnow()` is three inputs, in `ClockReadings`. A date range is a pair of optional bounds with no interpretation.
- Django's `getattr(settings, name, default)` is an optional field of `Settings` plus its default. The skip flag's Python truthiness is narrowed to an optional boolean.
- Python's keyword defaults (`size=10`, `size=20`, `from_=0`, `user=None`, ...) are not modelled: the caller always passes every argument.
- The key order of Python dictionaries is not modelled. Dafny maps are unordered.
- The engine's response is modelled as a value, so the in-place mutation of the engine's own hit dictionaries, and any aliasing of them, is not modelled. The `results` list is kept apart from the response's other keys. `access_denied_count` is written into those other keys.
- Dictionary values are limited to the `Value` datatype: None, booleans, integers, strings, date ranges, lists and dictionaries. Floats and arbitrary objects are left out. A status value of any type other than a string raises `AttributeError` at `split()`, as every non-string `Value` does here.

/**
 * The values the search API passes around: dictionary values, date ranges, search hits,
 * the queries handed to a search engine, and the collaborators and settings it consults.
 */
module SearchTypes {
  import opened Wrappers

  /** A UTC timestamp, as read from `datetime.utcnow()`; only its identity matters here. */
  type Time = int

  /** The search layer's `DateRange(start, end)`: two optional bounds, absent meaning unbounded. */
  datatype DateRange = DateRange(lower: Option<Time>, upper: Option<Time>)

  /**
   * A value stored in a field, filter or exclude dictionary, or in a hit's `data` payload.
   * `Null` is Python's `None`.
   */
  datatype Value =
    | Null
    | Bool(b: bool)
    | Int(i: int)
    | Str(s: string)
    | Range(range: DateRange)
    | List(items: seq<Value>)
    | Dict(entries: map<string, Value>)

  /** A Python dictionary keyed by field name. */
  type Dictionary = map<string, Value>

  /** The acting Django user, by identity. */
  type UserId = string

  type CourseId = string

  /** One hit of a search: its `data` payload and the engine's other keys (id, score, ...). */
  datatype Hit = Hit(meta: Dictionary, data: Value)

  /** What an engine returns: the `results` list and the other keys of the response dictionary. */
  datatype EngineResponse = EngineResponse(results: seq<Hit>, extra: Dictionary)

  /** The three dictionaries `SearchFilterGenerator.generate_field_filters` returns. */
  datatype Constraints = Constraints(fields: Dictionary, filters: Dictionary, exclude: Dictionary)

  /** The arguments of `searcher.search_string(...)`. */
  datatype StringQuery = StringQuery(
    searchTerm: string,
    fields: Dictionary,
    filters: Dictionary,
    exclude: Dictionary,
    size: int,
    from: int)

  /** The arguments of `searcher.search(...)`. */
  datatype DiscoveryQuery = DiscoveryQuery(
    queryString: Option<string>,
    size: int,
    from: int,
    fields: Dictionary,
    filters: Dictionary,
    exclude: Dictionary,
    aggregationTerms: Dictionary)

  /** A search engine instance: its two query operations, whose internals are not modelled. */
  datatype Engine = Engine(
    searchString: StringQuery -> EngineResponse,
    search: DiscoveryQuery -> EngineResponse)

  /** `SearchResultProcessor.process_result(data, search_term, user)`; `Null` means "not visible". */
  type Processor = (Value, string, Option<UserId>) -> Value

  /** The external code the search API calls, taken as uninterpreted functions. */
  datatype Collaborators = Collaborators(
    generateFieldFilters: (Option<UserId>, Option<CourseId>) -> Constraints,
    getSearchEngine: string -> Option<Engine>,
    processResult: Processor)

  /** The Django settings the API reads; `None` is a setting that is not defined. */
  datatype Settings = Settings(
    coursewareContentIndexName: Option<string>,
    coursewareInfoIndexName: Option<string>,
    courseDiscoveryFilters: Option<seq<string>>,
    courseDiscoveryAggregations: Option<Dictionary>,
    skipEnrollmentStartDateFiltering: Option<bool>)

  /** The three successive readings of `datetime.utcnow()` in `course_discovery_search`. */
  datatype ClockReadings = ClockReadings(today: Time, enrollmentStartNow: Time, enrollmentEndNow: Time)

  /**
   * The exceptions the API raises: `NoSearchEngineError`, and the `AttributeError` that
   * `status_value.split()` raises when the `estatus` value is not a string.
   */
  datatype SearchError = NoSearchEngine | NonTextStatus
}

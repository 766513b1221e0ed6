/**
 * The search business logic: a content search whose hits are post-processed for access
 * control, and a course discovery search whose field dictionary is derived from a course
 * status and the enrollment window.
 */
module SearchApi {
  import opened Wrappers
  import opened SearchTypes
  import opened Tokens
  import opened ResultProcessing

  /** The discovery filter fields used when `COURSE_DISCOVERY_FILTERS` is not set. */
  const DefaultFilterFields: seq<string> := ["org", "modes", "language"]
  const DefaultContentIndexName: string := "courseware_content"
  const DefaultInfoIndexName: string := "course_info"
  /** The only provider field keys a discovery search keeps. */
  const DiscoverySearchFields: seq<string> := ["org"]
  /** The reserved field key that carries a course status. */
  const StatusKey: string := "estatus"
  const AccessDeniedCountKey: string := "access_denied_count"

  // ----- Settings lookups -----

  /** The configured discovery filter fields, else org, modes and language. */
  function CourseDiscoveryFilterFields(settings: Settings): (fields: seq<string>)
    ensures settings.courseDiscoveryFilters.Some? ==> fields == settings.courseDiscoveryFilters.value
    ensures settings.courseDiscoveryFilters.None? ==> fields == ["org", "modes", "language"]
  {
    settings.courseDiscoveryFilters.GetOr(DefaultFilterFields)
  }

  /** One aggregation entry per field, each with no bucket options. */
  function EmptyBucketsFor(fields: seq<string>): (aggregations: Dictionary)
    ensures forall f :: f in aggregations <==> f in fields
    ensures forall f :: f in aggregations ==> aggregations[f] == Dict(map[])
  {
    if fields == [] then map[]
    else
      var last := |fields| - 1;
      assert fields == fields[..last] + [fields[last]];
      EmptyBucketsFor(fields[..last])[fields[last] := Dict(map[])]
  }

  /**
   * The configured aggregations, else one entry per discovery filter field, each with no
   * bucket options.
   */
  function CourseDiscoveryAggregations(settings: Settings): (aggregations: Dictionary)
    ensures settings.courseDiscoveryAggregations.Some? ==>
      aggregations == settings.courseDiscoveryAggregations.value
    ensures settings.courseDiscoveryAggregations.None? ==>
      && (forall f :: f in aggregations <==> f in CourseDiscoveryFilterFields(settings))
      && (forall f :: f in aggregations ==> aggregations[f] == Dict(map[]))
  {
    settings.courseDiscoveryAggregations.GetOr(EmptyBucketsFor(CourseDiscoveryFilterFields(settings)))
  }

  /** The configured content index name, else `courseware_content`. */
  function ContentIndexName(settings: Settings): (name: string)
    ensures settings.coursewareContentIndexName.Some? ==> name == settings.coursewareContentIndexName.value
    ensures settings.coursewareContentIndexName.None? ==> name == "courseware_content"
  {
    settings.coursewareContentIndexName.GetOr(DefaultContentIndexName)
  }

  /** The configured course info index name, else `course_info`. */
  function InfoIndexName(settings: Settings): (name: string)
    ensures settings.coursewareInfoIndexName.Some? ==> name == settings.coursewareInfoIndexName.value
    ensures settings.coursewareInfoIndexName.None? ==> name == "course_info"
  {
    settings.coursewareInfoIndexName.GetOr(DefaultInfoIndexName)
  }

  /** Enrollment-start filtering is skipped only when the setting is defined and set. */
  function SkipsEnrollmentStart(settings: Settings): (skip: bool)
    ensures skip <==> settings.skipEnrollmentStartDateFiltering == Some(true)
  {
    settings.skipEnrollmentStartDateFiltering.GetOr(false)
  }

  // ----- Content search -----

  /**
   * `perform_search`: ask the provider for the user's dictionaries, look up the content
   * engine, run the string search and post-process its hits. `sent` is the query handed to
   * the engine, `None` when no search call is made.
   */
  method PerformSearch(
    settings: Settings, env: Collaborators,
    searchTerm: string, user: Option<UserId>, size: int, from: int, courseId: Option<CourseId>)
    returns (r: Result<EngineResponse, SearchError>, ghost sent: Option<StringQuery>)
    ensures env.getSearchEngine(ContentIndexName(settings)).None? <==> r == Failure(NoSearchEngine)
    ensures r.Failure? ==> r.error == NoSearchEngine && sent == None
    ensures r.Success? ==>
      var provided := env.generateFieldFilters(user, courseId);
      && env.getSearchEngine(ContentIndexName(settings)).Some?
      && sent == Some(StringQuery(searchTerm, provided.fields, provided.filters, provided.exclude, size, from))
    ensures r.Success? && sent.Some? ==>
      var raw := env.getSearchEngine(ContentIndexName(settings)).value.searchString(sent.value);
      var processed := Rewrite(raw.results, searchTerm, user, env.processResult);
      && r.value.results == Visible(processed)
      && r.value.extra == raw.extra[AccessDeniedCountKey := Int(DeniedCount(processed))]
      && |r.value.results| + DeniedCount(processed) == |raw.results|
  {
    var provided := env.generateFieldFilters(user, courseId);
    var searcher := env.getSearchEngine(ContentIndexName(settings));
    if searcher.None? {
      return Failure(NoSearchEngine), None;
    }
    var query := StringQuery(searchTerm, provided.fields, provided.filters, provided.exclude, size, from);
    var results := searcher.value.searchString(query);
    var kept, deniedCount := ProcessResults(results.results, searchTerm, user, env.processResult);
    r := Success(EngineResponse(kept, results.extra[AccessDeniedCountKey := Int(deniedCount)]));
    sent := Some(query);
  }

  // ----- Course discovery search -----

  /**
   * The discovery field dictionary before status derivation: the provider's fields restricted
   * to `DiscoverySearchFields`, then updated with the caller's dictionary.
   */
  function MergedFields(providerFields: Dictionary, fieldDictionary: Option<Dictionary>): (merged: Dictionary)
    ensures forall k :: k in merged <==>
      (fieldDictionary.Some? && k in fieldDictionary.value) || (k in providerFields && k == "org")
    ensures forall k :: k in merged ==>
      merged[k] == if fieldDictionary.Some? && k in fieldDictionary.value
                   then fieldDictionary.value[k] else providerFields[k]
  {
    var seeded := map k | k in providerFields && k in DiscoverySearchFields :: providerFields[k];
    if fieldDictionary.Some? then seeded + fieldDictionary.value else seeded
  }

  /**
   * Whether a status asks for invitation-only courses: it is that token, or contains it. The
   * first test is subsumed by the second, since the token splits into itself.
   */
  function InvitationOnly(status: string): (flag: bool)
    ensures flag <==> "invitation_only" in Split(status)
  {
    InvitationTokenIsWord();
    WordSplitsToItself("invitation_only");
    status == "invitation_only" || "invitation_only" in Split(status)
  }

  /** The status string in a field dictionary, if it holds one. */
  function StatusText(fields: Dictionary): Option<string> {
    if StatusKey in fields && fields[StatusKey].Str? then Some(fields[StatusKey].s) else None
  }

  /** `d[k] == v` with `k` present. */
  predicate MapsTo(d: Dictionary, k: string, v: Value) {
    k in d && d[k] == v
  }

  /** `d` and `d'` agree at `k`: both lack it, or both hold the same value. */
  predicate SameAt(d: Dictionary, d': Dictionary, k: string) {
    (k in d <==> k in d') && (k in d ==> d[k] == d'[k])
  }

  /** The date range ending at `t`, open below. */
  function UpTo(t: Time): Value { Range(DateRange(None, Some(t))) }
  /** The date range starting at `t`, open above. */
  function From(t: Time): Value { Range(DateRange(Some(t), None)) }

  lemma DerivedKeysDistinct()
    ensures StatusKey != "start" && StatusKey != "end" && StatusKey != "invitation_only"
    ensures "invitation_only" != "start" && "invitation_only" != "end"
    ensures "enrollment_start" !in StatusDerivedKeys
  {
  }

  /** The keys the status step may write, besides removing `estatus`. */
  const StatusDerivedKeys: set<string> := {StatusKey, "start", "end", "invitation_only"}

  /** The status step removes `estatus` and writes no key outside `StatusDerivedKeys`. */
  ghost predicate StatusFrame(before: Dictionary, after: Dictionary) {
    StatusKey !in after && after - StatusDerivedKeys == before - StatusDerivedKeys
  }

  /**
   * The date ranges of a status: `ongoing` sets `start` and `end`, `upcoming` only `start`,
   * `finished` only `end`, any other status neither.
   */
  ghost predicate StatusDates(before: Dictionary, after: Dictionary, today: Time) {
    var status := StatusText(before);
    && (status == Some("ongoing") ==>
          MapsTo(after, "start", UpTo(today)) && MapsTo(after, "end", From(today)))
    && (status == Some("upcoming") ==>
          MapsTo(after, "start", From(today)) && SameAt(before, after, "end"))
    && (status == Some("finished") ==>
          MapsTo(after, "end", UpTo(today)) && SameAt(before, after, "start"))
    && (status != Some("ongoing") && status != Some("upcoming") && status != Some("finished") ==>
          SameAt(before, after, "start") && SameAt(before, after, "end"))
  }

  /** The invitation flag is set when `flag` holds and is left alone otherwise. */
  ghost predicate StatusFlag(before: Dictionary, after: Dictionary, flag: bool) {
    && (flag ==> MapsTo(after, "invitation_only", Bool(true)))
    && (!flag ==> SameAt(before, after, "invitation_only"))
  }

  /** Whether the dictionary's status is a string that asks for invitation-only courses. */
  function AsksInvitationOnly(fields: Dictionary): bool {
    var status := StatusText(fields);
    status.Some? && InvitationOnly(status.value)
  }

  /**
   * `after` is `before` with the status step applied, `flag` being whether the status asks
   * for invitation-only courses: `estatus` is gone, the date ranges follow the status, the
   * invitation flag is set when `flag` holds, and every other key is untouched.
   */
  ghost predicate StatusApplied(before: Dictionary, after: Dictionary, today: Time, flag: bool) {
    && StatusFrame(before, after)
    && StatusDates(before, after, today)
    && StatusFlag(before, after, flag)
  }

  /** The status step, with the invitation flag decided by the status itself. */
  ghost predicate StatusDerived(before: Dictionary, after: Dictionary, today: Time) {
    StatusApplied(before, after, today, AsksInvitationOnly(before))
  }

  /** Removing a key other than `estatus` does not change what the status asks for. */
  lemma AsksInvitationOnlyWithout(fields: Dictionary, k: string)
    requires k != StatusKey
    ensures AsksInvitationOnly(fields - {k}) == AsksInvitationOnly(fields)
  {
    assert StatusText(fields - {k}) == StatusText(fields);
  }

  /** The status step does not look at, or write, any key outside `StatusDerivedKeys`. */
  lemma StatusAppliedWithout(before: Dictionary, after: Dictionary, today: Time, flag: bool, k: string)
    requires StatusApplied(before, after, today, flag)
    requires k !in StatusDerivedKeys
    ensures StatusApplied(before - {k}, after - {k}, today, flag)
  {
    DerivedKeysDistinct();
    var before', after' := before - {k}, after - {k};
    assert StatusText(before') == StatusText(before);
    assert StatusFrame(before', after') by {
      assert after' - StatusDerivedKeys == (after - StatusDerivedKeys) - {k};
      assert before' - StatusDerivedKeys == (before - StatusDerivedKeys) - {k};
    }
  }

  /**
   * The date branch of the status step: `ongoing`, `upcoming` and `finished` (compared by
   * equality) add their `start`/`end` ranges; any other value adds nothing.
   */
  method AddStatusDates(fields: Dictionary, statusValue: Value, today: Time) returns (fields': Dictionary)
    ensures fields' - {"start", "end"} == fields - {"start", "end"}
    ensures statusValue == Str("ongoing") ==>
      MapsTo(fields', "start", UpTo(today)) && MapsTo(fields', "end", From(today))
    ensures statusValue == Str("upcoming") ==>
      MapsTo(fields', "start", From(today)) && SameAt(fields, fields', "end")
    ensures statusValue == Str("finished") ==>
      MapsTo(fields', "end", UpTo(today)) && SameAt(fields, fields', "start")
    ensures statusValue != Str("ongoing") && statusValue != Str("upcoming") && statusValue != Str("finished") ==>
      fields' == fields
  {
    fields' := fields;
    if statusValue == Str("ongoing") {
      fields' := fields'["start" := Range(DateRange(None, Some(today)))];
      fields' := fields'["end" := Range(DateRange(Some(today), None))];
    } else if statusValue == Str("upcoming") {
      fields' := fields'["start" := Range(DateRange(Some(today), None))];
    } else if statusValue == Str("finished") {
      fields' := fields'["end" := Range(DateRange(None, Some(today)))];
    }
  }

  /** The invitation branch of the status step: a status that is or contains the token sets the flag. */
  method AddInvitationFlag(fields: Dictionary, status: string) returns (fields': Dictionary)
    ensures InvitationOnly(status) ==> fields' == fields["invitation_only" := Bool(true)]
    ensures !InvitationOnly(status) ==> fields' == fields
  {
    fields' := fields;
    if InvitationOnly(status) {
      fields' := fields'["invitation_only" := Bool(true)];
    }
  }

  /**
   * The three steps of the status step (removing `estatus`, adding the date ranges, adding
   * the invitation flag when `flag` holds) establish its frame, its dates and its flag.
   */
  lemma StatusStepsCompose(fields: Dictionary, dated: Dictionary, after: Dictionary, today: Time, flag: bool)
    requires StatusKey in fields && fields[StatusKey].Str?
    requires var popped, statusValue := fields - {StatusKey}, fields[StatusKey];
      && dated - {"start", "end"} == popped - {"start", "end"}
      && (statusValue == Str("ongoing") ==>
            MapsTo(dated, "start", UpTo(today)) && MapsTo(dated, "end", From(today)))
      && (statusValue == Str("upcoming") ==>
            MapsTo(dated, "start", From(today)) && SameAt(popped, dated, "end"))
      && (statusValue == Str("finished") ==>
            MapsTo(dated, "end", UpTo(today)) && SameAt(popped, dated, "start"))
      && (statusValue != Str("ongoing") && statusValue != Str("upcoming") && statusValue != Str("finished") ==>
            dated == popped)
    requires after == if flag then dated["invitation_only" := Bool(true)] else dated
    ensures StatusFrame(fields, after) && StatusDates(fields, after, today) && StatusFlag(fields, after, flag)
  {
    DerivedKeysDistinct();
    var popped := fields - {StatusKey};
    assert StatusKey !in dated by {
      assert StatusKey !in popped - {"start", "end"};
    }
    assert SameAt(fields, dated, "invitation_only") by {
      assert "invitation_only" in popped <==> "invitation_only" in popped - {"start", "end"};
      assert "invitation_only" in dated <==> "invitation_only" in dated - {"start", "end"};
    }
    assert dated - StatusDerivedKeys == fields - StatusDerivedKeys by {
      assert dated - StatusDerivedKeys == (dated - {"start", "end"}) - StatusDerivedKeys;
      assert fields - StatusDerivedKeys == (popped - {"start", "end"}) - StatusDerivedKeys;
    }
    assert after - StatusDerivedKeys == dated - StatusDerivedKeys;
  }

  /**
   * The status step of `course_discovery_search`: pop `estatus` from the field dictionary, set
   * the exclude baseline, add the date ranges of the status and the invitation flag. `ok` is
   * false when the status is not a string, where `split()` raises.
   */
  method ApplyStatus(fields: Dictionary, exclude: Dictionary, today: Time)
    returns (ok: bool, fields': Dictionary, exclude': Dictionary)
    ensures !ok <==> StatusKey in fields && !fields[StatusKey].Str?
    ensures ok ==> StatusDerived(fields, fields', today)
    ensures ok ==>
      exclude' == if StatusKey in fields then exclude["invitation_only" := Bool(false)] else exclude
  {
    ok, fields', exclude' := true, fields, exclude;
    if StatusKey in fields {
      var statusValue := fields[StatusKey];
      var popped := fields - {StatusKey};
      exclude' := exclude["invitation_only" := Bool(false)];
      var dated := AddStatusDates(popped, statusValue, today);
      // only a string has `split()`
      if !statusValue.Str? {
        ok := false;
        return;
      }
      fields' := AddInvitationFlag(dated, statusValue.s);
      StatusStepsCompose(fields, dated, fields', today, InvitationOnly(statusValue.s));
    }
  }

  /**
   * `course_discovery_search`: build the field and exclude dictionaries, look up the course
   * info engine and run the full search. `sent` is the query handed to the engine, `None`
   * when no search call is made.
   */
  method CourseDiscoverySearch(
    settings: Settings, env: Collaborators, clock: ClockReadings,
    searchTerm: Option<string>, size: int, from: int, fieldDictionary: Option<Dictionary>)
    returns (r: Result<EngineResponse, SearchError>, ghost sent: Option<DiscoveryQuery>)
    // errors, and the call to the engine
    ensures var merged := MergedFields(env.generateFieldFilters(None, None).fields, fieldDictionary);
      r == Failure(NonTextStatus) <==> StatusKey in merged && !merged[StatusKey].Str?
    ensures var merged := MergedFields(env.generateFieldFilters(None, None).fields, fieldDictionary);
      r == Failure(NoSearchEngine) <==>
        !(StatusKey in merged && !merged[StatusKey].Str?) && env.getSearchEngine(InfoIndexName(settings)).None?
    ensures sent.Some? <==> r.Success?
    ensures r.Success? && sent.Some? ==>
      && env.getSearchEngine(InfoIndexName(settings)).Some?
      && r.value == env.getSearchEngine(InfoIndexName(settings)).value.search(sent.value)
    // the query's fixed parts
    ensures sent.Some? ==>
      var q := sent.value;
      && q.queryString == searchTerm && q.size == size && q.from == from
      && q.filters == map["enrollment_end" := From(clock.enrollmentEndNow)]
      && q.aggregationTerms == CourseDiscoveryAggregations(settings)
    // the exclude dictionary
    ensures sent.Some? ==>
      var provided := env.generateFieldFilters(None, None);
      var merged := MergedFields(provided.fields, fieldDictionary);
      sent.value.exclude ==
        if StatusKey in merged then provided.exclude["invitation_only" := Bool(false)] else provided.exclude
    // the field dictionary: the status step applied to the merged dictionary, then enrollment_start
    ensures sent.Some? ==>
      var merged := MergedFields(env.generateFieldFilters(None, None).fields, fieldDictionary);
      var fields := sent.value.fields;
      StatusDerived(merged - {"enrollment_start"}, fields - {"enrollment_start"}, clock.today)
    ensures sent.Some? ==>
      var merged := MergedFields(env.generateFieldFilters(None, None).fields, fieldDictionary);
      var fields := sent.value.fields;
      && (!SkipsEnrollmentStart(settings) ==>
            MapsTo(fields, "enrollment_start", UpTo(clock.enrollmentStartNow)))
      && (SkipsEnrollmentStart(settings) ==> SameAt(merged, fields, "enrollment_start"))
  {
    var provided := env.generateFieldFilters(None, None);
    var searchFields, excludeDictionary := provided.fields, provided.exclude;
    var useFields := map k | k in searchFields && k in DiscoverySearchFields :: searchFields[k];
    if fieldDictionary.Some? {
      useFields := useFields + fieldDictionary.value;
    }
    ghost var merged := useFields;
    assert merged == MergedFields(searchFields, fieldDictionary);
    var ok;
    ok, useFields, excludeDictionary := ApplyStatus(useFields, excludeDictionary, clock.today);
    if !ok {
      return Failure(NonTextStatus), None;
    }
    ghost var derived := useFields;
    DerivedKeysDistinct();
    StatusAppliedWithout(merged, derived, clock.today, AsksInvitationOnly(merged), "enrollment_start");
    AsksInvitationOnlyWithout(merged, "enrollment_start");
    assert SameAt(merged, derived, "enrollment_start") by {
      assert "enrollment_start" in merged <==> "enrollment_start" in merged - StatusDerivedKeys;
      assert "enrollment_start" in derived <==> "enrollment_start" in derived - StatusDerivedKeys;
    }
    if !SkipsEnrollmentStart(settings) {
      useFields := useFields["enrollment_start" := Range(DateRange(None, Some(clock.enrollmentStartNow)))];
    }
    assert useFields - {"enrollment_start"} == derived - {"enrollment_start"};
    var searcher := env.getSearchEngine(InfoIndexName(settings));
    if searcher.None? {
      return Failure(NoSearchEngine), None;
    }
    var query := DiscoveryQuery(
      searchTerm, size, from, useFields,
      map["enrollment_end" := Range(DateRange(Some(clock.enrollmentEndNow), None))],
      excludeDictionary, CourseDiscoveryAggregations(settings));
    r := Success(searcher.value.search(query));
    sent := Some(query);
  }

  // ----- The status tokens -----

  lemma InvitationTokenIsWord()
    ensures "invitation_only" != [] && NoSpace("invitation_only")
  {
  }

  /**
   * A status asks for invitation-only courses exactly when `invitation_only` stands alone in
   * it, between whitespace or the ends of the string.
   */
  lemma InvitationOnlyIff(status: string)
    ensures InvitationOnly(status) <==> exists i :: StandsAlone(status, "invitation_only", i)
  {
    var w := "invitation_only";
    InvitationTokenIsWord();
    InSplitIff(status, w);
    if status == w {
      assert status[0..0 + |w|] == w;
      assert StandsAlone(status, w, 0);
    }
  }

  /**
   * A combined status such as "ongoing invitation_only" asks for invitation-only courses,
   * although it matches none of the date statuses.
   */
  lemma CombinedStatusIsInvitationOnly()
    ensures var status := "ongoing invitation_only";
      && InvitationOnly(status)
      && status != "ongoing" && status != "upcoming" && status != "finished"
  {
    var status, w := "ongoing invitation_only", "invitation_only";
    assert status[8..8 + |w|] == w;
    assert StandsAlone(status, w, 8);
    InvitationOnlyIff(status);
  }

  /**
   * With the status "ongoing invitation_only" the status step sets the invitation flag but
   * leaves `start` and `end` as they were: the date statuses are matched by equality.
   */
  lemma CombinedStatusSetsOnlyTheFlag(before: Dictionary, after: Dictionary, today: Time)
    requires StatusKey in before && before[StatusKey] == Str("ongoing invitation_only")
    requires StatusDerived(before, after, today)
    ensures MapsTo(after, "invitation_only", Bool(true))
    ensures SameAt(before, after, "start") && SameAt(before, after, "end")
  {
    CombinedStatusIsInvitationOnly();
  }

  /** Without an `estatus` key the status step changes nothing. */
  lemma NoStatusNoChange(before: Dictionary, after: Dictionary, today: Time)
    requires StatusKey !in before
    requires StatusDerived(before, after, today)
    ensures after == before
  {
    forall k | k in StatusDerivedKeys
      ensures SameAt(before, after, k)
    {
    }
    forall k
      ensures k in after <==> k in before
    {
      if k !in StatusDerivedKeys {
        assert k in after <==> k in after - StatusDerivedKeys;
        assert k in before <==> k in before - StatusDerivedKeys;
      }
    }
    forall k | k in after
      ensures after[k] == before[k]
    {
      if k !in StatusDerivedKeys {
        assert (after - StatusDerivedKeys)[k] == (before - StatusDerivedKeys)[k];
      }
    }
  }
}

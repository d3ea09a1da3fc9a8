/**
 * The JAX-RS resources (org.jberet.rest.resource): /jobs, /jobexecutions,
 * /jobinstances and /schedules. Each endpoint checks and defaults its
 * request parameters, calls JobService, and addresses the job executions it
 * returns with an href. The request's query parameters arrive as a map from
 * name to the list of values; the base URI of the application is a string.
 */
module Resource {
  import opened Wrappers
  import opened JavaLang
  import opened JavaUtil
  import opened BatchApi
  import opened RestMessages
  import opened Entity
  import opened Service

  /** Query parameters as JAX-RS hands them over: every name has at least one value. */
  predicate WellFormedQuery(query: map<string, seq<string>>)
  {
    forall k | k in query :: |query[k]| > 0
  }

  /** The first value of each query parameter. */
  function FirstValues(query: map<string, seq<string>>): map<string, string>
    requires WellFormedQuery(query)
  {
    map k | k in query :: query[k][0]
  }

  // ---------------------------------------------------------------------------
  // /jobs

  class JobResource {

    /**
     * The job parameters jobParametersFromUriInfoAndProps yields: without
     * query parameters, `props` itself; otherwise the first value of each
     * query parameter, overridden by every entry of `props`.
     */
    static function MergedParameters(query: map<string, seq<string>>, props: Option<map<string, string>>)
      : (r: Option<map<string, string>>)
      requires WellFormedQuery(query)
      ensures r.None? <==> |query| == 0 && props.None?
      ensures |query| > 0 ==> query.Keys <= r.value.Keys
    {
      if |query| == 0 then props
      else Some(FirstValues(query) + (if props.Some? then props.value else map[]))
    }

    /**
     * The merge is a union in which `props` wins: the keys are those of the
     * query and of `props`, a key of `props` keeps its value there, and any
     * other key takes the first value given in the query.
     */
    static lemma MergedParametersSemantics(query: map<string, seq<string>>, props: Option<map<string, string>>)
      requires WellFormedQuery(query)
      ensures |query| == 0 ==> MergedParameters(query, props) == props
      ensures |query| > 0 ==> var r := MergedParameters(query, props);
        r.Some?
        && r.value.Keys == query.Keys + (if props.Some? then props.value.Keys else {})
        && (forall k | props.Some? && k in props.value :: r.value[k] == props.value[k])
        && (forall k | k in query && (props.None? || k !in props.value) :: r.value[k] == query[k][0])
    {
      if |query| > 0 {
        var fromProps := if props.Some? then props.value else map[];
        assert FirstValues(query).Keys == query.Keys;
        assert MergedParameters(query, props) == Some(FirstValues(query) + fromProps);
      }
    }

    /**
     * jobParametersFromUriInfoAndProps(uriInfo, props): returns `props` itself
     * (possibly null) when there are no query parameters, and otherwise a new
     * Properties filled first from the query and then from `props`.
     */
    static method JobParametersFromUriInfoAndProps(query: map<string, seq<string>>, props: Properties?)
      returns (p: Properties?)
      requires WellFormedQuery(query)
      ensures |query| == 0 ==> p == props
      ensures |query| > 0 ==> p != null && fresh(p)
      ensures Contents(p) == MergedParameters(query, Contents(props))
    {
      if |query| == 0 {
        return props;
      }
      p := new Properties();
      PutFirstValues(p, query);
      assert map[] + FirstValues(query) == FirstValues(query);
      if props != null {
        PutAll(p, props);
        assert Contents(props) == Some(props.entries);
      } else {
        assert FirstValues(query) + map[] == FirstValues(query);
      }
    }

    /** The loop over uriInfo.getQueryParameters(): sets each name to its first value. */
    static method PutFirstValues(p: Properties, query: map<string, seq<string>>)
      requires WellFormedQuery(query)
      modifies p
      ensures p.entries == old(p.entries) + FirstValues(query)
    {
      var remaining := query.Keys;
      while remaining != {}
        invariant remaining <= query.Keys
        invariant p.entries == old(p.entries) + map k | k in query.Keys - remaining :: query[k][0]
        decreases remaining
      {
        var key :| key in remaining;
        p.SetProperty(key, query[key][0]);
        remaining := remaining - {key};
      }
    }

    /** The loop over props.stringPropertyNames(): copies every entry of `props` into `p`. */
    static method PutAll(p: Properties, props: Properties)
      requires p != props
      modifies p
      ensures p.entries == old(p.entries) + props.entries
    {
      var rest := props.entries.Keys;
      while rest != {}
        invariant rest <= props.entries.Keys
        invariant p.entries == old(p.entries) + map k | k in props.entries.Keys - rest :: props.entries[k]
        decreases rest
      {
        var k :| k in rest;
        p.SetProperty(k, props.entries[k]);
        rest := rest - {k};
      }
      assert (map k | k in props.entries.Keys :: props.entries[k]) == props.entries;
    }

    /** schedule(jobXmlName, scheduleConfig): a config without a job name gets the one from the path. */
    static method Schedule(jobXmlName: string, scheduleConfig: JobScheduleConfig)
      modifies scheduleConfig`jobName
      ensures old(scheduleConfig.jobName) == None ==> scheduleConfig.jobName == Some(jobXmlName)
      ensures old(scheduleConfig.jobName) != None ==> scheduleConfig.jobName == old(scheduleConfig.jobName)
    {
      if scheduleConfig.jobName == None {
        scheduleConfig.jobName := Some(jobXmlName);
      }
    }

    /**
     * restart(jobXmlName, uriInfo, props): restarts the latest execution of
     * the job's first instance (start 0, count 1) with the merged parameters;
     * a job without instances is an invalid jobXmlName.
     */
    static method Restart(service: JobService, jobXmlName: string, query: map<string, seq<string>>,
                          props: Properties?, baseUri: string)
      returns (r: Result<JobExecutionEntity, RestError>)
      requires WellFormedQuery(query)
      ensures var instances := service.jobOperator.jobInstances(jobXmlName, 0, 1);
        (r.Err? <==> |instances| == 0)
        && (r.Err? ==> r.error == InvalidQueryParamValue("jobXmlName", jobXmlName))
        && (r.Ok? ==>
          var latest := FromJobInstance(instances[0], service.jobOperator.jobExecutions(Some(instances[0])));
          var restarted := service.jobOperator.restart(latest.latestJobExecutionId, MergedParameters(query, Contents(props)));
          r.value.Reflects(service.jobOperator.jobExecution(restarted), service.InstanceIdOf(restarted))
          && JobExecutionResource.HasHref(r.value, baseUri))
    {
      var jobInstances := service.GetJobInstances(jobXmlName, 0, 1);
      if jobInstances.Length > 0 {
        var latestJobExecutionId := jobInstances[0].latestJobExecutionId;
        var params := JobParametersFromUriInfoAndProps(query, props);
        var jobExecutionEntity := service.Restart(latestJobExecutionId, params);
        JobExecutionResource.SetJobExecutionEntityHref(baseUri, [jobExecutionEntity]);
        return Ok(jobExecutionEntity);
      } else {
        return Err(InvalidQueryParamValue("jobXmlName", jobXmlName));
      }
    }
  }

  // ---------------------------------------------------------------------------
  // /jobexecutions

  class JobExecutionResource {

    /** The href of a job execution: the base URI, the resource path "jobexecutions", then the id in decimal. */
    static function ExecutionHref(baseUri: string, executionId: int): (h: string)
      ensures |h| > |baseUri| + 15 && h[..|baseUri|] == baseUri
      ensures h[|baseUri| + 15..] == DecimalString(executionId)
    {
      baseUri + "/jobexecutions/" + DecimalString(executionId)
    }

    /** Different executions get different hrefs under the same base URI. */
    static lemma ExecutionHrefInjective(baseUri: string, a: int, b: int)
      ensures ExecutionHref(baseUri, a) == ExecutionHref(baseUri, b) ==> a == b
    {
      var prefix := baseUri + "/jobexecutions/";
      if ExecutionHref(baseUri, a) == ExecutionHref(baseUri, b) {
        assert DecimalString(a) == ExecutionHref(baseUri, a)[|prefix|..];
        assert DecimalString(b) == ExecutionHref(baseUri, b)[|prefix|..];
        DecimalStringInjective(a, b);
      }
    }

    /** `e` is addressed by the href of its own execution id. */
    static predicate HasHref(e: JobExecutionEntity, baseUri: string)
      reads e
    {
      e.href == Some(ExecutionHref(baseUri, e.executionId))
    }

    /** setJobExecutionEntityHref(uriInfo, entities): sets each entity's href from its own id; nothing else changes. */
    static method SetJobExecutionEntityHref(baseUri: string, entities: seq<JobExecutionEntity?>)
      requires null !in entities
      modifies entities`href
      ensures forall e | e in entities :: HasHref(e, baseUri)
    {
      for i := 0 to |entities|
        invariant forall k | 0 <= k < i :: HasHref(entities[k], baseUri)
      {
        var e := entities[i];
        e.href := Some(ExecutionHref(baseUri, e.executionId));
      }
    }

    /** GET /jobexecutions: the service's list, each entity with its href. */
    static method GetJobExecutions(service: JobService, count: int, jobInstanceId: int, jobExecutionId1: int,
                                   baseUri: string)
      returns (jobExecutionEntities: array<JobExecutionEntity?>)
      ensures service.LatestExecutionsFirst(jobExecutionEntities[..], count, jobExecutionId1)
      ensures forall k | 0 <= k < jobExecutionEntities.Length ::
        jobExecutionEntities[k] != null && HasHref(jobExecutionEntities[k], baseUri)
    {
      jobExecutionEntities := service.GetJobExecutions(count, jobInstanceId, jobExecutionId1);
      SetJobExecutionEntityHref(baseUri, jobExecutionEntities[..]);
    }

    /** GET /jobexecutions/running: the running executions of `jobName`, each with its href. */
    static method GetRunningExecutions(service: JobService, jobName: string, baseUri: string)
      returns (jobExecutionEntities: array<JobExecutionEntity?>)
      ensures service.RunningExecutionsReversed(jobExecutionEntities[..], jobName)
      ensures forall k | 0 <= k < jobExecutionEntities.Length ::
        jobExecutionEntities[k] != null && HasHref(jobExecutionEntities[k], baseUri)
    {
      jobExecutionEntities := service.GetRunningExecutions(jobName);
      SetJobExecutionEntityHref(baseUri, jobExecutionEntities[..]);
    }

    /** GET /jobexecutions/{id}: the execution, with its href. */
    static method GetJobExecution(service: JobService, jobExecutionId: int, baseUri: string)
      returns (jobExecution: JobExecutionEntity)
      ensures jobExecution.Reflects(service.jobOperator.jobExecution(jobExecutionId), service.InstanceIdOf(jobExecutionId))
      ensures HasHref(jobExecution, baseUri)
    {
      jobExecution := service.GetJobExecution(jobExecutionId);
      SetJobExecutionEntityHref(baseUri, [jobExecution]);
    }

    /** POST /jobexecutions/{id}/restart: restarts with the merged parameters; the new execution gets its href. */
    static method Restart(service: JobService, jobExecutionId: int, query: map<string, seq<string>>,
                          jobParamsAsProps: Properties?, baseUri: string)
      returns (jobExecutionEntity: JobExecutionEntity)
      requires WellFormedQuery(query)
      ensures var restarted := service.jobOperator.restart(jobExecutionId, JobResource.MergedParameters(query, Contents(jobParamsAsProps)));
        jobExecutionEntity.Reflects(service.jobOperator.jobExecution(restarted), service.InstanceIdOf(restarted))
      ensures HasHref(jobExecutionEntity, baseUri)
    {
      var params := JobResource.JobParametersFromUriInfoAndProps(query, jobParamsAsProps);
      jobExecutionEntity := service.Restart(jobExecutionId, params);
      SetJobExecutionEntityHref(baseUri, [jobExecutionEntity]);
    }

    /**
     * POST /jobexecutions/{id}/resubmit: resubmits the definition with the
     * query parameters as restart parameters; the new execution gets its href.
     */
    static method Resubmit(service: JobService, jobExecutionId: int, query: map<string, seq<string>>,
                           jobDefinition: Option<string>, baseUri: string, jobInstance: JobInstanceImpl)
      returns (r: Result<JobExecutionEntity, JavaException>)
      requires WellFormedQuery(query)
      modifies jobInstance
      ensures var installs := jobDefinition.Some? && |jobDefinition.value| > 60;
        (installs && service.UnwrapJobOperator().Ok? ==> jobInstance.unsubstitutedJob == Some(JsonJob(jobDefinition.value)))
        && (!(installs && service.UnwrapJobOperator().Ok?) ==> jobInstance.unsubstitutedJob == old(jobInstance.unsubstitutedJob))
        && (r.Err? <==> installs && service.UnwrapJobOperator().Err?)
      ensures r.Ok? ==>
        var restarted := service.jobOperator.restart(jobExecutionId, JobResource.MergedParameters(query, None));
        r.value.Reflects(service.jobOperator.jobExecution(restarted), service.InstanceIdOf(restarted))
        && HasHref(r.value, baseUri)
    {
      var params := JobResource.JobParametersFromUriInfoAndProps(query, null);
      r := service.Resubmit(jobDefinition, jobExecutionId, params, jobInstance);
      if r.Ok? {
        SetJobExecutionEntityHref(baseUri, [r.value]);
      }
    }

    /** schedule(jobExecutionId, scheduleConfig): a config without an execution id (0) gets the one from the path. */
    static method Schedule(jobExecutionId: int, scheduleConfig: JobScheduleConfig)
      modifies scheduleConfig`jobExecutionId
      ensures old(scheduleConfig.jobExecutionId) == 0 ==> scheduleConfig.jobExecutionId == jobExecutionId
      ensures old(scheduleConfig.jobExecutionId) != 0 ==> scheduleConfig.jobExecutionId == old(scheduleConfig.jobExecutionId)
    {
      if scheduleConfig.jobExecutionId == 0 {
        scheduleConfig.jobExecutionId := jobExecutionId;
      }
    }

    /** The position of the first step execution with id `stepExecutionId`, if any. */
    static function FirstStepIndex(steps: seq<StepExecution>, stepExecutionId: int): (r: Option<nat>)
      ensures r.Some? ==> r.value < |steps| && steps[r.value].stepExecutionId == stepExecutionId
      ensures r.Some? ==> forall m | 0 <= m < r.value :: steps[m].stepExecutionId != stepExecutionId
      ensures r.None? ==> forall m | 0 <= m < |steps| :: steps[m].stepExecutionId != stepExecutionId
    {
      if |steps| == 0 then None
      else if steps[0].stepExecutionId == stepExecutionId then Some(0)
      else match FirstStepIndex(steps[1..], stepExecutionId)
        case None => None
        case Some(k) => Some(k + 1)
    }

    /**
     * GET /jobexecutions/{id}/stepexecutions/{stepExecutionId}: the first step
     * execution with that id, or not found, naming the id in decimal.
     */
    static method GetStepExecution(service: JobService, jobExecutionId: int, stepExecutionId: int)
      returns (r: Result<StepExecutionEntity, RestError>)
      ensures var steps := service.jobOperator.stepExecutions(jobExecutionId);
        match FirstStepIndex(steps, stepExecutionId)
        case None => r == Err(NotFound("stepExecutionId", DecimalString(stepExecutionId)))
        case Some(k) => r.Ok? && r.value.Reflects(steps[k])
    {
      var stepExecutionData := service.GetStepExecutions(jobExecutionId);
      ghost var steps := service.jobOperator.stepExecutions(jobExecutionId);
      for i := 0 to stepExecutionData.Length
        invariant forall m | 0 <= m < i :: steps[m].stepExecutionId != stepExecutionId
      {
        var e := stepExecutionData[i];
        if e.stepExecutionId == stepExecutionId {
          return Ok(e);
        }
      }
      return Err(NotFound("stepExecutionId", DecimalString(stepExecutionId)));
    }
  }

  // ---------------------------------------------------------------------------
  // /jobinstances

  /** What getJobInstances asks the service for. */
  datatype InstanceQuery =
    | ByExecution(jobExecutionId: int)
    | ByName(jobName: string, start: int, count: int)

  /** The response entity of getJobInstances: one instance, or an array of them. */
  datatype InstancesBody =
    | OneInstance(instance: JobInstanceEntity)
    | Instances(instances: array<JobInstanceEntity>)

  class JobInstanceResource {

    /**
     * The checks and defaults of getJobInstances, in order: a positive
     * jobExecutionId wins over everything else; a negative one, then a
     * negative start, then a negative count is rejected; a missing name
     * means every job ("*") and a count of 0 means no limit.
     */
    static function InstanceQueryOf(jobName: Option<string>, start: int, count: int, jobExecutionId: int)
      : (r: Result<InstanceQuery, RestError>)
      requires IsInt(start) && IsInt(count)
      ensures r.Ok? <==> jobExecutionId > 0 || (jobExecutionId == 0 && start >= 0 && count >= 0)
      ensures jobExecutionId > 0 ==> r == Ok(ByExecution(jobExecutionId))
      ensures r.Ok? && r.value.ByName? ==>
        r.value.jobName == (if jobName.Some? then jobName.value else "*")
        && r.value.start == start
        && 0 < r.value.count <= IntegerMaxValue
        && (count > 0 ==> r.value.count == count)
        && (count == 0 ==> r.value.count == IntegerMaxValue)
      ensures r.Ok? && jobExecutionId == 0 ==> r.value.ByName?
      ensures r.Err? ==> r.error.InvalidQueryParamValue?
      ensures jobExecutionId < 0 ==> r.error.key == "jobExecutionId"
      ensures jobExecutionId == 0 && start < 0 ==> r.error.key == "start"
      ensures jobExecutionId == 0 && start >= 0 && count < 0 ==> r.error.key == "count"
    {
      if jobExecutionId > 0 then Ok(ByExecution(jobExecutionId))
      else if jobExecutionId < 0 then Err(InvalidQueryParamValue("jobExecutionId", DecimalString(jobExecutionId)))
      else if start < 0 then Err(InvalidQueryParamValue("start", DecimalString(start)))
      else if count < 0 then Err(InvalidQueryParamValue("count", DecimalString(count)))
      else Ok(ByName(if jobName == None then "*" else jobName.value, start, if count == 0 then IntegerMaxValue else count))
    }

    /** A rejected request reports the offending value itself: it reads back as that negative number. */
    static lemma RejectedValueReadsBack(jobName: Option<string>, start: int, count: int, jobExecutionId: int)
      requires IsInt(start) && IsInt(count)
      ensures var r := InstanceQueryOf(jobName, start, count, jobExecutionId);
        r.Err? ==> var v := r.error.value;
          |v| > 0 && v[0] == '-' && (forall i | 0 < i < |v| :: IsDigit(v[i]))
          && ParseDecimal(v) == (if r.error.key == "jobExecutionId" then jobExecutionId
                                 else if r.error.key == "start" then start else count)
          && ParseDecimal(v) < 0
    {
      DecimalStringRoundTrip(jobExecutionId);
      DecimalStringRoundTrip(start);
      DecimalStringRoundTrip(count);
    }

    /**
     * GET /jobinstances: the instance owning a positive jobExecutionId, or the
     * instances of the (defaulted) name in the requested window.
     */
    static method GetJobInstances(service: JobService, jobName: Option<string>, start: int, count: int,
                                  jobExecutionId: int)
      returns (r: Result<InstancesBody, RestError>)
      requires IsInt(start) && IsInt(count)
      ensures match InstanceQueryOf(jobName, start, count, jobExecutionId)
        case Err(e) => r == Err(e)
        case Ok(ByExecution(id)) => r == Ok(OneInstance(service.GetJobInstance(id)))
        case Ok(ByName(name, s, c)) =>
          var instances := service.jobOperator.jobInstances(name, s, c);
          r.Ok? && r.value.Instances? && r.value.instances.Length == |instances|
          && forall k | 0 <= k < |instances| ::
            r.value.instances[k] == FromJobInstance(instances[k], service.jobOperator.jobExecutions(Some(instances[k])))
    {
      if jobExecutionId > 0 {
        var jobInstanceData := service.GetJobInstance(jobExecutionId);
        return Ok(OneInstance(jobInstanceData));
      } else if jobExecutionId < 0 {
        return Err(InvalidQueryParamValue("jobExecutionId", DecimalString(jobExecutionId)));
      }
      if start < 0 {
        return Err(InvalidQueryParamValue("start", DecimalString(start)));
      }
      if count < 0 {
        return Err(InvalidQueryParamValue("count", DecimalString(count)));
      }
      var jobInstanceData := service.GetJobInstances(if jobName == None then "*" else jobName.value, start,
                                                     if count == 0 then IntegerMaxValue else count);
      return Ok(Instances(jobInstanceData));
    }

    /** GET /jobinstances/count: the number of instances of `jobName`, which must be given. */
    static function GetJobInstanceCount(service: JobService, jobName: Option<string>): (r: Result<int, RestError>)
      ensures r.Err? <==> jobName == None
      ensures r.Err? ==> r.error == MissingQueryParams("jobName")
      ensures r.Ok? ==> r.value == service.jobOperator.jobInstanceCount(jobName.value)
    {
      if jobName == None then Err(MissingQueryParams("jobName"))
      else Ok(service.jobOperator.jobInstanceCount(jobName.value))
    }
  }

  // ---------------------------------------------------------------------------
  // /schedules

  class JobScheduleResource {

    /** GET /schedules: the scheduler's list as an array, same length and order. */
    static method GetJobSchedules(jobScheduleList: seq<JobSchedule>) returns (r: array<JobSchedule>)
      ensures r[..] == jobScheduleList
    {
      r := new JobSchedule[|jobScheduleList|](k requires 0 <= k < |jobScheduleList| => jobScheduleList[k]);
    }

    /** `s` with its element at `i` moved to the front and the elements before it shifted one place right. */
    static function MoveToFront(s: seq<string>, i: int): (r: seq<string>)
      requires 0 <= i < |s|
      ensures |r| == |s|
    {
      [s[i]] + s[..i] + s[i + 1..]
    }

    /** Moving an element to the front keeps exactly the same elements. */
    static lemma MoveToFrontPermutes(s: seq<string>, i: int)
      requires 0 <= i < |s|
      ensures multiset(MoveToFront(s, i)) == multiset(s)
    {
      assert s == s[..i] + [s[i]] + s[i + 1..];
    }

    /** Moving an element of a sorted sequence to the front leaves the rest sorted. */
    static lemma MoveToFrontRestSorted(s: seq<string>, i: int)
      requires 0 <= i < |s| && Sorted(s)
      ensures Sorted(MoveToFront(s, i)[1..])
    {
      var rest := MoveToFront(s, i)[1..];
      assert rest == s[..i] + s[i + 1..];
      forall a, b | 0 <= a < b < |rest|
        ensures LexLe(rest[a], rest[b])
      {
        var sa := if a < i then a else a + 1;
        var sb := if b < i then b else b + 1;
        assert rest[a] == s[sa] && rest[b] == s[sb];
      }
    }

    /**
     * GET /schedules/timezones: sorts the available ids in place, finds the
     * default id by binary search, and returns the ids with the default first
     * and the others in sorted order. When the default id is not among them
     * the search index is negative and reading it throws.
     */
    static method GetTimezoneIds(availableIDs: array<string>, defaultId: string)
      returns (r: Result<array<string>, JavaException>, ghost i: int)
      modifies availableIDs
      ensures Sorted(availableIDs[..]) && multiset(availableIDs[..]) == multiset(old(availableIDs[..]))
      ensures r.Err? <==> defaultId !in old(availableIDs[..])
      ensures r.Err? ==> r.error.ArrayIndexOutOfBounds? && r.error.index < 0
      ensures r.Ok? ==>
        0 <= i < availableIDs.Length && availableIDs[i] == defaultId
        && fresh(r.value) && r.value[..] == MoveToFront(availableIDs[..], i)
      ensures r.Ok? ==>
        r.value.Length == availableIDs.Length && r.value[0] == defaultId
        && r.value[1..i + 1] == availableIDs[..i] && r.value[i + 1..] == availableIDs[i + 1..]
      ensures r.Ok? ==> multiset(r.value[..]) == multiset(old(availableIDs[..])) && Sorted(r.value[1..])
    {
      Sort(availableIDs);
      assert multiset(availableIDs[..]) == multiset(old(availableIDs[..]));
      var index := BinarySearch(availableIDs, defaultId);
      i := index;
      if index < 0 {
        assert defaultId !in old(availableIDs[..]);
        return Err(ArrayIndexOutOfBounds(index)), i;
      }
      assert defaultId in old(availableIDs[..]) by {
        assert availableIDs[..][index] == defaultId;
        assert defaultId in multiset(availableIDs[..]);
      }
      var result := new string[availableIDs.Length];
      result[0] := availableIDs[index];
      ArrayCopy(availableIDs, 0, result, 1, index);
      ArrayCopy(availableIDs, index + 1, result, index + 1, availableIDs.Length - (index + 1));
      assert result[..] == MoveToFront(availableIDs[..], index);
      MoveToFrontPermutes(availableIDs[..], index);
      MoveToFrontRestSorted(availableIDs[..], index);
      return Ok(result), i;
    }
  }
}

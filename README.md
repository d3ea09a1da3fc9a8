# JBeret REST layer, modelled in Dafny

JBeret's REST API (`jberet-rest`) publishes Jakarta Batch over HTTP. It has
four JAX-RS resources: `/jobs`, `/jobexecutions`, `/jobinstances` and
`/schedules`. They check and default their request parameters and call the
`JobService` facade. `JobService` turns the answers of the batch runtime's
`JobOperator` into entities: `JobExecutionEntity`, `JobInstanceEntity`,
`StepExecutionEntity`, `MetricEntity` and `JobEntity`. Before the resources
return job executions, they give each one an href. `BatchExceptionMapper` turns
a `BatchRuntimeException` into a 400, 403 or 500 response. The response body is
a `BatchExceptionEntity`.

This project models that layer and proves what it promises:

- how query parameters and a `Properties` body are merged into job parameters;
- how execution lists are paged and reversed, latest first;
- how the time-zone list is re-ordered so that the default zone comes first;
- the ordered parameter checks and defaults of each endpoint;
- the first-match search for a step execution;
- href assignment;
- the status classification of exceptions;
- the cause-chain walk with loop detection;
- the field-by-field copies that the entities make.

Each Java package is a module. Java code that updates objects is modelled as
classes, methods, arrays and loops. Java code that only computes is modelled as
functions.

| file | module | models |
|---|---|---|
| `wrappers.dfy` | `Wrappers` | `null` (`Option`) and "returns or throws" (`Result`) |
| `java_lang.dfy` | `JavaLang` | `String.valueOf(long)`, `String.compareTo`, `System.arraycopy`, `Throwable` |
| `java_util.dfy` | `JavaUtil` | `Properties`, `Arrays.sort`, `Arrays.binarySearch` on `String[]` |
| `batch_api.dfy` | `BatchApi` | the batch runtime seen from the REST layer: `JobOperator` answers, `JobExecution`, `StepExecution`, `JobInstanceImpl`, `JobScheduleConfig`, exception class names |
| `rest_messages.dfy` | `RestMessages` | the 400/404 errors of `RestAPIMessages` |
| `entity.dfy` | `Entity` | the entity classes and `BatchExceptionEntity` |
| `service.dfy` | `Service` | `JobService` |
| `resource.dfy` | `Resource` | the four resource classes |
| `exception_mapper.dfy` | `RestException` | `BatchExceptionMapper` |

The batch runtime is outside the model. A `JobOperator` is a value whose fields
are the answers to its queries: job names, instance counts, running
executions, instances of a job, the instance that owns an execution, the
executions of an instance (or of all instances), step executions, and the
execution id that a restart yields. A request's query parameters are a map
from each name to its list of values. The application's base URI is a string.
The time-zone database is an array of ids plus a default id. Which kind of
object `BatchRuntime` returns as the operator is an `OperatorRef`.

## Model

| member | source | states |
|---|---|---|
| `JavaLang.DecimalString` | jberet-rest-api/src/main/java/org/jberet/rest/resource/JobExecutionResource.java:250 | `String.valueOf(long)`: non-empty text that starts with a minus sign exactly for a negative number, with only digits after that sign |
| `JavaLang.LexLess` | jberet-rest-api/src/main/java/org/jberet/rest/resource/JobScheduleResource.java:99-100 | `a.compareTo(b) < 0`, compared character by character with a proper prefix first; nothing sorts before the empty string |
| `JavaLang.LexLessIrreflexive` | jberet-rest-api/src/main/java/org/jberet/rest/resource/JobScheduleResource.java:99-100 | no id sorts before itself under `compareTo` |
| `JavaLang.LexLessTransitive` | jberet-rest-api/src/main/java/org/jberet/rest/resource/JobScheduleResource.java:99-100 | `compareTo` order is transitive |
| `JavaLang.LexLessTotal` | jberet-rest-api/src/main/java/org/jberet/rest/resource/JobScheduleResource.java:99-100 | two ids are equal or one of them sorts first, so sorting and binary search are well defined |
| `JavaLang.DecimalStringRoundTrip` | jberet-rest-api/src/main/java/org/jberet/rest/resource/JobExecutionResource.java:238 | the decimal text of an id reads back as the same number: a sign only for negatives, then digits |
| `JavaLang.ArrayCopy` | jberet-rest-api/src/main/java/org/jberet/rest/resource/JobScheduleResource.java:103-104 | `System.arraycopy` writes the source range into the destination range and leaves every other slot as it was |
| `JavaUtil.Sort` | jberet-rest-api/src/main/java/org/jberet/rest/resource/JobScheduleResource.java:99 | after `Arrays.sort` the array is sorted in `compareTo` order and holds the same multiset of ids |
| `JavaUtil.BinarySearch` | jberet-rest-api/src/main/java/org/jberet/rest/resource/JobScheduleResource.java:100 | the result is non-negative exactly when the key is present, and then it is an index of the key; otherwise it is `-(insertion point) - 1`, with smaller ids before that point and larger ids after it |
| `JavaUtil.Properties.SetProperty` | jberet-rest-api/src/main/java/org/jberet/rest/resource/JobResource.java:197 | `setProperty(key, value)` adds the key or overwrites its value, and leaves every other entry as it was |
| `Entity.MetricEntity.Empty` | jberet-rest-commons/src/main/java/org/jberet/rest/entity/MetricEntity.java:38-39 | a default metric has no type and the value 0 |
| `Entity.MetricEntity.constructor` | jberet-rest-commons/src/main/java/org/jberet/rest/entity/MetricEntity.java:41-44 | the copy has the metric's type and value |
| `Entity.MetricEntity.CopyOf` | jberet-rest-commons/src/main/java/org/jberet/rest/entity/MetricEntity.java:46-56 | null gives null; otherwise a new array of the same length whose slot `i` is a new, distinct entity with the type and value of metric `i` |
| `Entity.MetricEntity.SetType` | jberet-rest-commons/src/main/java/org/jberet/rest/entity/MetricEntity.java:63-65 | sets the type and nothing else |
| `Entity.MetricEntity.SetValue` | jberet-rest-commons/src/main/java/org/jberet/rest/entity/MetricEntity.java:72-74 | sets the value and nothing else |
| `Entity.StepExecutionEntity.constructor` | jberet-rest-commons/src/main/java/org/jberet/rest/entity/StepExecutionEntity.java:55-60 | copies the step execution's id, name, times and statuses; its metrics are a copy made by `CopyOf`, and null stays null |
| `Entity.JobExecutionEntity.Empty` | jberet-rest-commons/src/main/java/org/jberet/rest/entity/JobExecutionEntity.java:64-67 | a default entity has default fields and an empty step-execution list |
| `Entity.JobExecutionEntity.constructor` | jberet-rest-commons/src/main/java/org/jberet/rest/entity/JobExecutionEntity.java:69-78 | copies start and end times, the two statuses, the execution id, create and update times, the job name and the same job-parameters object; stores the given instance id; has no href and no step executions |
| `Entity.JobExecutionEntity.FromJobExecutions` | jberet-rest-commons/src/main/java/org/jberet/rest/entity/JobExecutionEntity.java:80-88 | the result has the input's length, slot `k` is built from input element `len-1-k`, and every entity carries the given instance id |
| `Entity.JobExecutionEntity.SetExecutionId` | jberet-rest-commons/src/main/java/org/jberet/rest/entity/JobExecutionEntity.java:94-96 | changes only `executionId` |
| `Entity.JobExecutionEntity.SetCreateTime` | jberet-rest-commons/src/main/java/org/jberet/rest/entity/JobExecutionEntity.java:102-104 | changes only `createTime` |
| `Entity.JobExecutionEntity.SetLastUpdatedTime` | jberet-rest-commons/src/main/java/org/jberet/rest/entity/JobExecutionEntity.java:110-112 | changes only `lastUpdatedTime` |
| `Entity.JobExecutionEntity.SetJobParameters` | jberet-rest-commons/src/main/java/org/jberet/rest/entity/JobExecutionEntity.java:118-120 | changes only `jobParameters` |
| `Entity.JobExecutionEntity.SetJobName` | jberet-rest-commons/src/main/java/org/jberet/rest/entity/JobExecutionEntity.java:126-128 | changes only `jobName` |
| `Entity.JobExecutionEntity.SetStepExecutions` | jberet-rest-commons/src/main/java/org/jberet/rest/entity/JobExecutionEntity.java:134-136 | changes only `stepExecutions` |
| `Entity.JobExecutionEntity.SetHref` | jberet-rest-commons/src/main/java/org/jberet/rest/entity/JobExecutionEntity.java:142-144 | changes only `href` |
| `Entity.JobExecutionEntity.SetJobInstanceId` | jberet-rest-commons/src/main/java/org/jberet/rest/entity/JobExecutionEntity.java:150-152 | changes only `jobInstanceId` |
| `Entity.FromJobInstance` | jberet-rest-commons/src/main/java/org/jberet/rest/entity/JobInstanceEntity.java:50-57 | copies the instance id and job name; the execution count is the list's size; the latest execution id is the id of the last execution, or 0 when there are none |
| `Entity.FromException` | jberet-rest-commons/src/main/java/org/jberet/rest/entity/BatchExceptionEntity.java:48-52 | records the exception's own class and its message unchanged |
| `Entity.GetThrowableList` | jberet-rest-commons/src/main/java/org/jberet/rest/entity/BatchExceptionEntity.java:80-92 | the walk starts at the origin, which is empty only for a null origin; each element is the cause of the one before it, and no element repeats; the result is the walk when the last cause is null; the call fails with `IllegalArgumentException("Loop chain detected: ", t)` exactly when the next cause `t` is already listed |
| `Entity.GetRootCause` | jberet-rest-commons/src/main/java/org/jberet/rest/entity/BatchExceptionEntity.java:75-78 | null for a null origin; otherwise the last throwable of the chain, which has no cause; a loop fails with the same `IllegalArgumentException("Loop chain detected: ", t)` as `GetThrowableList`, naming the throwable `t` that repeats |
| `Entity.PrefixOfTerminatingChain` | jberet-rest-commons/src/main/java/org/jberet/rest/entity/BatchExceptionEntity.java:80-92 | a chain from a throwable that ends in a null cause contains, as a prefix, every other chain from that throwable, so the walk is determined by its origin |
| `Entity.TerminatingChainHasNoLoop` | jberet-rest-commons/src/main/java/org/jberet/rest/entity/BatchExceptionEntity.java:82-89 | when the cause chain ends in null, the loop error is never raised: the next cause is never already listed |
| `RestException.StatusCode` | jberet-rest-api/src/main/java/org/jberet/rest/exception/BatchExceptionMapper.java:50-54 | the three statuses are 400, 403 and 500; only the last is a server error |
| `RestException.StatusOf` | jberet-rest-api/src/main/java/org/jberet/rest/exception/BatchExceptionMapper.java:43-55 | BAD_REQUEST if and only if the exception is an instance of one of the seven lookup or state-conflict classes; FORBIDDEN if and only if it is none of those but is a `JobSecurityException`; INTERNAL_SERVER_ERROR if and only if it is neither |
| `RestException.ToResponse` | jberet-rest-api/src/main/java/org/jberet/rest/exception/BatchExceptionMapper.java:39-59 | the status is the one `StatusOf` picks for the exception's class; the body describes that same exception, with its class and message |
| `RestException.ClientErrorsAreBadRequest` | jberet-rest-api/src/main/java/org/jberet/rest/exception/BatchExceptionMapper.java:43-50 | each of the seven `jakarta.batch.operations` lookup and state-conflict exceptions gives 400 |
| `RestException.NotAClientError` | jberet-rest-api/src/main/java/org/jberet/rest/exception/BatchExceptionMapper.java:43-50 | a direct subclass of `BatchRuntimeException` whose name is not one of the seven client-error classes is an instance of none of them |
| `RestException.SecurityExceptionIsForbidden` | jberet-rest-api/src/main/java/org/jberet/rest/exception/BatchExceptionMapper.java:51-52 | `JobSecurityException` gives 403 |
| `RestException.StartExceptionIsServerError` | jberet-rest-api/src/main/java/org/jberet/rest/exception/BatchExceptionMapper.java:53-54 | `JobStartException` gives 500 |
| `RestException.RestartExceptionIsServerError` | jberet-rest-api/src/main/java/org/jberet/rest/exception/BatchExceptionMapper.java:53-54 | `JobRestartException` gives 500 |
| `RestException.SubclassOfClientErrorIsBadRequest` | jberet-rest-api/src/main/java/org/jberet/rest/exception/BatchExceptionMapper.java:43-50 | a subclass of a client-error exception gives 400, whatever else it extends |
| `Service.EffectiveCount` | jberet-rest-commons/src/main/java/org/jberet/rest/service/JobService.java:138-143 | the result is never more than the total; a count of 0 or less gives the total; a positive count gives that count, capped at the total |
| `Service.JobService.constructor` | jberet-rest-commons/src/main/java/org/jberet/rest/service/JobService.java:52-54 | the service holds the operator it was given |
| `Service.JobService.GetJobs` | jberet-rest-commons/src/main/java/org/jberet/rest/service/JobService.java:88-100 | one entry per job name, in iteration order; each holds the job's name, its instance count and the number of its running executions |
| `Service.JobService.GetJobInstances` | jberet-rest-commons/src/main/java/org/jberet/rest/service/JobService.java:102-113 | one entry per instance the operator returns, in order; each is built from that instance and its executions |
| `Service.JobService.GetJobInstance` | jberet-rest-commons/src/main/java/org/jberet/rest/service/JobService.java:115-118 | the entity `FromJobInstance` builds from the instance that owns the execution and that instance's executions: the owner's id and name, the number of its executions and the id of its latest execution |
| `Service.JobService.GetJobExecution` | jberet-rest-commons/src/main/java/org/jberet/rest/service/JobService.java:124-127 | a new entity for the execution, with the id of its owning instance |
| `Service.JobService.GetJobExecutions` | jberet-rest-commons/src/main/java/org/jberet/rest/service/JobService.java:129-151 | an instance is looked up only for a positive `jobExecutionId1`; otherwise all executions are listed; the length is `EffectiveCount`; slot `j` is built from execution `countAll-1-j`, so the latest come first; every entity is new and has no href |
| `Service.JobService.LatestEntities` | jberet-rest-commons/src/main/java/org/jberet/rest/service/JobService.java:144-149 | a new array of length `n`; slot `k` is a new entity, without href, built from execution `len-1-k` |
| `Service.JobService.Restart` | jberet-rest-commons/src/main/java/org/jberet/rest/service/JobService.java:163-169 | a new entity for the execution id that the restart returns, using the contents of the restart parameters |
| `Service.JobService.UnwrapJobOperator` | jberet-rest-commons/src/main/java/org/jberet/rest/service/JobService.java:226-234 | the delegate of a delegating operator, otherwise the operator itself; the result is always an `AbstractJobOperator`, and the cast fails exactly when the chosen operator is not one |
| `Service.JobService.Resubmit` | jberet-rest-commons/src/main/java/org/jberet/rest/service/JobService.java:186-200 | the job definition is installed in the instance only when it is non-null and longer than 60 characters, and unwrapping succeeds; otherwise the instance's job is unchanged; the execution is restarted in both cases; only a failed unwrap is an error |
| `Service.JobService.GetRunningExecutions` | jberet-rest-commons/src/main/java/org/jberet/rest/service/JobService.java:202-213 | the same number of entities as running ids; slot `k` is built from id `len-1-k`, so the order is reversed |
| `Service.JobService.ReversedEntities` | jberet-rest-commons/src/main/java/org/jberet/rest/service/JobService.java:205-211 | a new array of one new entity per id, without href; slot `k` is built from id `len-1-k` |
| `Service.JobService.GetStepExecutions` | jberet-rest-commons/src/main/java/org/jberet/rest/service/JobService.java:215-224 | one entity per step execution, in the operator's order, each a full copy that includes its metrics |
| `Resource.JobResource.MergedParameters` | jberet-rest-api/src/main/java/org/jberet/rest/resource/JobResource.java:189-205 | the job parameters the merge yields: null only when there are no query parameters and `props` is null; otherwise every query name is a key |
| `Resource.JobResource.MergedParametersSemantics` | jberet-rest-api/src/main/java/org/jberet/rest/resource/JobResource.java:189-205 | with no query parameters the result is `props`, null included; otherwise the keys are the union of the query keys and the keys of `props`; every key of `props` keeps its value from `props`; every other key takes its first query value |
| `Resource.JobResource.JobParametersFromUriInfoAndProps` | jberet-rest-api/src/main/java/org/jberet/rest/resource/JobResource.java:189-205 | with no query parameters it returns the same `props` object; otherwise a new `Properties` whose contents are `MergedParameters` of the query and `props` |
| `Resource.JobResource.PutFirstValues` | jberet-rest-api/src/main/java/org/jberet/rest/resource/JobResource.java:196-198 | after the loop over the query, `p` holds its earlier entries overridden by the first value of every query name |
| `Resource.JobResource.PutAll` | jberet-rest-api/src/main/java/org/jberet/rest/resource/JobResource.java:199-203 | after the loop over the names of `props`, `p` holds its earlier entries overridden by every entry of `props` |
| `Resource.JobResource.Schedule` | jberet-rest-api/src/main/java/org/jberet/rest/resource/JobResource.java:117-123 | the config's job name becomes the path name only when it was null; a name that is already set is kept |
| `Resource.JobResource.Restart` | jberet-rest-api/src/main/java/org/jberet/rest/resource/JobResource.java:149-164 | fails with `invalidQueryParamValue("jobXmlName", name)` exactly when the query (start 0, count 1) finds no instance; otherwise restarts the latest execution of the first instance with the merged parameters, and the result has its href |
| `Resource.JobExecutionResource.ExecutionHref` | jberet-rest-api/src/main/java/org/jberet/rest/resource/JobExecutionResource.java:248-250 | the href of an execution is the base URI, then `/jobexecutions/`, then `String.valueOf` of its id |
| `Resource.JobExecutionResource.ExecutionHrefInjective` | jberet-rest-api/src/main/java/org/jberet/rest/resource/JobExecutionResource.java:247-251 | under one base URI, different execution ids get different hrefs |
| `Resource.JobExecutionResource.SetJobExecutionEntityHref` | jberet-rest-api/src/main/java/org/jberet/rest/resource/JobExecutionResource.java:247-252 | every entity passed gets the href of its own execution id; its frame allows no other field to change |
| `Resource.JobExecutionResource.GetJobExecutions` | jberet-rest-api/src/main/java/org/jberet/rest/resource/JobExecutionResource.java:55-65 | the service's latest-first list, with every entity's href set |
| `Resource.JobExecutionResource.GetRunningExecutions` | jberet-rest-api/src/main/java/org/jberet/rest/resource/JobExecutionResource.java:74-81 | the reversed list of running executions, with every entity's href set |
| `Resource.JobExecutionResource.GetJobExecution` | jberet-rest-api/src/main/java/org/jberet/rest/resource/JobExecutionResource.java:91-98 | the execution's entity, with its href set |
| `Resource.JobExecutionResource.Restart` | jberet-rest-api/src/main/java/org/jberet/rest/resource/JobExecutionResource.java:145-154 | restarts with the merged query and body parameters; the new execution's entity has its href set |
| `Resource.JobExecutionResource.Resubmit` | jberet-rest-api/src/main/java/org/jberet/rest/resource/JobExecutionResource.java:179-188 | uses the query parameters alone (no body properties) with the service's definition gate; on success the new execution's entity has its href set |
| `Resource.JobExecutionResource.Schedule` | jberet-rest-api/src/main/java/org/jberet/rest/resource/JobExecutionResource.java:197-205 | the config's execution id becomes the path id only when it was 0; a non-zero id is kept |
| `Resource.JobExecutionResource.FirstStepIndex` | jberet-rest-api/src/main/java/org/jberet/rest/resource/JobExecutionResource.java:232-237 | the position of the first step execution with the id, if there is one; when there is none, no step execution has that id |
| `Resource.JobExecutionResource.GetStepExecution` | jberet-rest-api/src/main/java/org/jberet/rest/resource/JobExecutionResource.java:228-239 | the entity built from the first step execution with that id; when there is none, `notFoundException("stepExecutionId", String.valueOf(id))` |
| `Resource.JobInstanceResource.InstanceQueryOf` | jberet-rest-api/src/main/java/org/jberet/rest/resource/JobInstanceResource.java:59-76 | succeeds exactly when `jobExecutionId > 0`, or when it is 0 and `start` and `count` are not negative; a positive `jobExecutionId` ignores the other parameters; errors name the first invalid parameter, in the order `jobExecutionId`, `start`, `count`; a by-name query keeps `start`, uses `"*"` for a missing name, and uses a positive count: the one requested, or `Integer.MAX_VALUE` for 0 |
| `Resource.JobInstanceResource.RejectedValueReadsBack` | jberet-rest-api/src/main/java/org/jberet/rest/resource/JobInstanceResource.java:62-73 | the value in an invalid-parameter error is the decimal text of the offending parameter, and it reads back as that negative number |
| `Resource.JobInstanceResource.GetJobInstances` | jberet-rest-api/src/main/java/org/jberet/rest/resource/JobInstanceResource.java:54-79 | follows `InstanceQueryOf`: the error it picks, the single instance owning the execution, or one entity per instance that the defaulted query returns |
| `Resource.JobInstanceResource.GetJobInstanceCount` | jberet-rest-api/src/main/java/org/jberet/rest/resource/JobInstanceResource.java:87-94 | fails with `missingQueryParams("jobName")` exactly when the name is missing; otherwise the operator's count for that name |
| `Resource.JobScheduleResource.GetJobSchedules` | jberet-rest-api/src/main/java/org/jberet/rest/resource/JobScheduleResource.java:42-48 | the array has the scheduler's list in the same length and order |
| `Resource.JobScheduleResource.MoveToFront` | jberet-rest-api/src/main/java/org/jberet/rest/resource/JobScheduleResource.java:101-104 | the re-ordered sequence keeps the length of the input |
| `Resource.JobScheduleResource.MoveToFrontPermutes` | jberet-rest-api/src/main/java/org/jberet/rest/resource/JobScheduleResource.java:101-104 | moving the default to the front keeps exactly the same ids |
| `Resource.JobScheduleResource.MoveToFrontRestSorted` | jberet-rest-api/src/main/java/org/jberet/rest/resource/JobScheduleResource.java:99-104 | after the default is moved from a sorted list, the ids behind it stay sorted |
| `Resource.JobScheduleResource.GetTimezoneIds` | jberet-rest-api/src/main/java/org/jberet/rest/resource/JobScheduleResource.java:95-107 | the ids are sorted in place; the call fails with a negative `ArrayIndexOutOfBounds` exactly when the default id is absent; otherwise `result[0]` is the default, `result[1..i]` holds the ids sorted before it, and `result[i+1..]` holds the ids after it; the result is a permutation of the ids, sorted after its first slot |

## Left out

- `JobResource.start` and `submit`, and `JobService.start` and `submit`, are not modelled. They forward to `JobOperator.start`, or to `AbstractJobOperator.start` after `JsonJobMapper.toJob`, and set an href the same way `Restart` does.
- These endpoints only forward a call, so they are not modelled: `JobResource.getJobs`, `JobExecutionResource.abandon`, `stop` and `getStepExecutions`, `JobScheduleResource.cancel`, `delete`, `getJobSchedule` and `getFeatures`, and `JobService.abandon`, `stop` and `getJobInstanceCount`.
- `JsonJobMapper.toJob` and `ExceptionClassFilter` are not part of this model. A resubmitted definition is installed as `JsonJob(text)`, and a parse failure is not modelled.
- Resource.JobResource.Schedule: it does not call `JobScheduler.schedule`, and it does not return the resulting `JobSchedule`. The scheduler is outside the model. `JobExecutionResource.Schedule` is the same.
- Exceptions thrown by `JobOperator` calls (no such job, security, restart refused) are not modelled. Every operator call returns its answer, and the answers do not change while a request runs.
- Resource.JobResource.Restart: the contract cannot say that nothing is restarted when no instance exists. The operator's restart is a pure answer here, not an effect. The error path simply has no restarted execution.
- Service.JobService.Resubmit: the cast of `getJobInstance` to `JobInstanceImpl` is not modelled. The `JobInstanceImpl` that the unwrapped operator returns is a parameter.
- Service.JobService.Resubmit: the 60-character gate counts Dafny characters. Java's `String.length` counts UTF-16 code units, so text outside the Basic Multilingual Plane counts differently.
- JavaUtil.Sort: the order is `compareTo` on Dafny characters, not on UTF-16 code units. The two orders differ only for supplementary characters. The JDK's sort algorithm is not modelled either, only its result.
- JobService is a singleton in Java. Here each resource method takes the service as a parameter.
- Entity.GetThrowableList: termination depends on a ghost finite set of throwables that is closed under `getCause()`. It stands for the finite Java heap. `Throwable.initCause`, which is how a cause loop comes about, is not modelled.
- `BatchExceptionEntity.toString` and the `stackTrace` field are not modelled (printing a stack trace is I/O). Logging in `BatchExceptionMapper` and all other logging is left out too.
- `CORSFilter`, the message texts of `RestAPIMessages` and `RestCommonsMessages`, and JAX-RS and XML annotations are not modelled.
- Entity.MetricEntity.CopyOf: the input is the sequence of metrics `getMetrics()` returns, so "the input is not modified" holds by construction.
- An href is `baseUri + "/jobexecutions/" + id`. `UriBuilder`'s encoding and slash normalisation are not modelled.
- Java `int` and `long` widths are not modelled. Ids and counts are unbounded integers, except that `start` and `count` in `InstanceQueryOf` are `int` values.
- `Date` values are optional integers. `Properties` defaults are not modelled: `stringPropertyNames()` is the set of keys of the entries.
- A `JobExecutionEntity` keeps its step executions as a sequence. Neither list identity nor a null list is modelled.
- These are not modelled: the setters of `AbstractExecutionEntity` and `StepExecutionEntity`, `getPersistentUserData`, and the getters of every entity.
- Query parameters are assumed to have at least one value per name, which JAX-RS guarantees. The order in which the map is walked does not affect the result.

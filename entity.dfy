/**
 * The entities the REST layer returns (org.jberet.rest.entity): copies of the
 * batch runtime's executions, instances and metrics, and the body that
 * describes a BatchRuntimeException.
 */
module Entity {
  import opened Wrappers
  import opened JavaLang
  import opened JavaUtil
  import opened BatchApi

  // ---------------------------------------------------------------------------
  // MetricEntity

  /** A step-execution metric: its type and its value. */
  class MetricEntity {
    var metricType: Option<MetricType>
    var value: int

    /** The no-argument constructor: no type, value 0. */
    constructor Empty()
      ensures metricType == None && value == 0
    {
      metricType := None;
      value := 0;
    }

    /** The copy constructor. */
    constructor (metric: Metric)
      ensures Copies(metric)
    {
      metricType := Some(metric.metricType);
      value := metric.value;
    }

    /** This entity holds the type and value of `metric`. */
    predicate Copies(metric: Metric)
      reads this
    {
      metricType == Some(metric.metricType) && value == metric.value
    }

    method SetType(t: Option<MetricType>)
      modifies this`metricType
      ensures metricType == t
    {
      metricType := t;
    }

    method SetValue(v: int)
      modifies this`value
      ensures value == v
    {
      value := v;
    }

    /**
     * copyOf(metrics): null for null, otherwise a new array holding a new
     * entity per metric, in the same order.
     */
    static method CopyOf(metrics: Option<seq<Metric>>) returns (r: array?<MetricEntity?>)
      ensures r == null <==> metrics == None
      ensures r != null ==> fresh(r) && CopiesAll(r, metrics.value)
      ensures r != null ==> forall i | 0 <= i < r.Length :: fresh(r[i])
      ensures r != null ==> forall i, j | 0 <= i < j < r.Length :: r[i] != r[j]
    {
      if metrics.Some? {
        var m := metrics.value;
        var metricArray := new MetricEntity?[|m|];
        for i := 0 to metricArray.Length
          invariant forall k | 0 <= k < i :: metricArray[k] != null && fresh(metricArray[k])
          invariant forall k | 0 <= k < i :: metricArray[k].Copies(m[k])
          invariant forall k, l | 0 <= k < l < i :: metricArray[k] != metricArray[l]
        {
          metricArray[i] := new MetricEntity(m[i]);
        }
        return metricArray;
      } else {
        return null;
      }
    }

    /** `r` is an element-by-element copy of `metrics`. */
    static predicate CopiesAll(r: array<MetricEntity?>, metrics: seq<Metric>)
      reads r, set i | 0 <= i < r.Length :: r[i]
    {
      r.Length == |metrics|
      && forall i | 0 <= i < r.Length :: r[i] != null && r[i].Copies(metrics[i])
    }
  }

  // ---------------------------------------------------------------------------
  // StepExecutionEntity

  /** A step execution as returned to clients. */
  class StepExecutionEntity {
    var stepExecutionId: int
    var stepName: Option<string>
    var startTime: Date
    var endTime: Date
    var batchStatus: Option<BatchStatus>
    var exitStatus: Option<string>
    var metrics: array?<MetricEntity?>

    /** Copies a StepExecution, its metrics through MetricEntity.CopyOf. */
    constructor (stepExe: StepExecution)
      ensures Reflects(stepExe)
      ensures metrics != null ==> fresh(metrics)
    {
      startTime := stepExe.startTime;
      endTime := stepExe.endTime;
      batchStatus := stepExe.batchStatus;
      exitStatus := stepExe.exitStatus;
      stepExecutionId := stepExe.stepExecutionId;
      stepName := stepExe.stepName;
      new;
      metrics := MetricEntity.CopyOf(stepExe.metrics);
    }

    /** Every field of this entity holds the value of `x`, its metrics as a copy. */
    predicate Reflects(x: StepExecution)
      reads this, metrics
      reads if metrics == null then {} else set i | 0 <= i < metrics.Length :: metrics[i]
    {
      stepExecutionId == x.stepExecutionId && stepName == x.stepName
      && startTime == x.startTime && endTime == x.endTime
      && batchStatus == x.batchStatus && exitStatus == x.exitStatus
      && (metrics == null <==> x.metrics == None)
      && (metrics != null ==> MetricEntity.CopiesAll(metrics, x.metrics.value))
    }
  }

  // ---------------------------------------------------------------------------
  // JobExecutionEntity

  /** A job execution as returned to clients, with the href that addresses it. */
  class JobExecutionEntity {
    var startTime: Date
    var endTime: Date
    var batchStatus: Option<BatchStatus>
    var exitStatus: Option<string>
    var executionId: int
    var href: Option<string>
    var createTime: Date
    var lastUpdatedTime: Date
    var jobParameters: Properties?
    var jobName: Option<string>
    var jobInstanceId: int
    var stepExecutions: seq<StepExecutionEntity>

    /** The no-argument constructor: every field at its default, no step executions. */
    constructor Empty()
      ensures executionId == 0 && jobInstanceId == 0 && href == None
      ensures startTime == None && endTime == None && createTime == None && lastUpdatedTime == None
      ensures batchStatus == None && exitStatus == None && jobName == None && jobParameters == null
      ensures stepExecutions == []
    {
      startTime, endTime, createTime, lastUpdatedTime := None, None, None, None;
      batchStatus, exitStatus, jobName, jobParameters := None, None, None, null;
      executionId, jobInstanceId, href := 0, 0, None;
      stepExecutions := [];
    }

    /**
     * Copies `jobExecution` and records `jobInstanceId`; a new entity has no
     * href and an empty list of step executions.
     */
    constructor (jobExecution: JobExecution, jobInstanceId: int)
      ensures Reflects(jobExecution, jobInstanceId)
      ensures href == None && stepExecutions == []
    {
      startTime := jobExecution.startTime;
      endTime := jobExecution.endTime;
      batchStatus := jobExecution.batchStatus;
      exitStatus := jobExecution.exitStatus;
      executionId := jobExecution.executionId;
      createTime := jobExecution.createTime;
      lastUpdatedTime := jobExecution.lastUpdatedTime;
      jobName := jobExecution.jobName;
      jobParameters := jobExecution.jobParameters;
      this.jobInstanceId := jobInstanceId;
      href := None;
      stepExecutions := [];
    }

    /** Every field copied from a JobExecution holds that execution's value, and the instance id is `instanceId`. */
    predicate Reflects(x: JobExecution, instanceId: int)
      reads this
    {
      startTime == x.startTime && endTime == x.endTime
      && batchStatus == x.batchStatus && exitStatus == x.exitStatus
      && executionId == x.executionId && createTime == x.createTime
      && lastUpdatedTime == x.lastUpdatedTime && jobName == x.jobName
      && jobParameters == x.jobParameters && jobInstanceId == instanceId
    }

    /**
     * fromJobExecutions(list, instanceId): one new entity per execution, in
     * reverse order, all carrying `instanceId`.
     */
    static method FromJobExecutions(jobExecutions: seq<JobExecution>, instanceId: int)
      returns (result: array<JobExecutionEntity?>)
      ensures result.Length == |jobExecutions|
      ensures forall k | 0 <= k < result.Length ::
        result[k] != null && result[k].Reflects(jobExecutions[|jobExecutions| - 1 - k], instanceId)
        && result[k].href == None
    {
      var len := |jobExecutions|;
      result := new JobExecutionEntity?[len];
      var i := len - 1;
      while i >= 0
        invariant -1 <= i < len
        invariant forall k | 0 <= k < len - 1 - i ::
          result[k] != null && fresh(result[k])
          && result[k].Reflects(jobExecutions[len - 1 - k], instanceId) && result[k].href == None
      {
        result[len - 1 - i] := new JobExecutionEntity(jobExecutions[i], instanceId);
        i := i - 1;
      }
    }

    method SetExecutionId(executionId: int)
      modifies this`executionId
      ensures this.executionId == executionId
    {
      this.executionId := executionId;
    }

    method SetCreateTime(createTime: Date)
      modifies this`createTime
      ensures this.createTime == createTime
    {
      this.createTime := createTime;
    }

    method SetLastUpdatedTime(lastUpdatedTime: Date)
      modifies this`lastUpdatedTime
      ensures this.lastUpdatedTime == lastUpdatedTime
    {
      this.lastUpdatedTime := lastUpdatedTime;
    }

    method SetJobParameters(jobParameters: Properties?)
      modifies this`jobParameters
      ensures this.jobParameters == jobParameters
    {
      this.jobParameters := jobParameters;
    }

    method SetJobName(jobName: Option<string>)
      modifies this`jobName
      ensures this.jobName == jobName
    {
      this.jobName := jobName;
    }

    method SetStepExecutions(stepExecutions: seq<StepExecutionEntity>)
      modifies this`stepExecutions
      ensures this.stepExecutions == stepExecutions
    {
      this.stepExecutions := stepExecutions;
    }

    method SetHref(href: Option<string>)
      modifies this`href
      ensures this.href == href
    {
      this.href := href;
    }

    method SetJobInstanceId(jobInstanceId: int)
      modifies this`jobInstanceId
      ensures this.jobInstanceId == jobInstanceId
    {
      this.jobInstanceId := jobInstanceId;
    }
  }

  // ---------------------------------------------------------------------------
  // JobInstanceEntity and JobEntity

  /** A job instance with how many executions it has and which one is the latest. */
  datatype JobInstanceEntity = JobInstanceEntity(
    instanceId: int,
    jobName: Option<string>,
    numberOfJobExecutions: int,
    latestJobExecutionId: int)

  /**
   * new JobInstanceEntity(instance, executions): the latest execution is the
   * last one listed, and 0 (the field's default) when there is none.
   */
  function FromJobInstance(jobInstance: JobInstance, jobExecutions: seq<JobExecution>): (e: JobInstanceEntity)
    ensures e.instanceId == jobInstance.instanceId && e.jobName == jobInstance.jobName
    ensures e.numberOfJobExecutions == |jobExecutions|
    ensures |jobExecutions| > 0 ==> e.latestJobExecutionId == jobExecutions[|jobExecutions| - 1].executionId
    ensures |jobExecutions| == 0 ==> e.latestJobExecutionId == 0
  {
    var n := |jobExecutions|;
    JobInstanceEntity(jobInstance.instanceId, jobInstance.jobName, n,
      if n > 0 then jobExecutions[n - 1].executionId else 0)
  }

  /** A job: its name, how many instances it has and how many executions are running. */
  datatype JobEntity = JobEntity(jobName: string, numberOfJobInstances: int, numberOfRunningJobExecutions: int)

  // ---------------------------------------------------------------------------
  // BatchExceptionEntity

  /** The body describing a BatchRuntimeException: its class and its message (the stack-trace text is not modelled). */
  datatype BatchExceptionEntity = BatchExceptionEntity(exceptionClass: ExceptionType, message: Option<string>)

  /** new BatchExceptionEntity(ex): records the exception's own class and message. */
  function FromException(ex: Throwable): (e: BatchExceptionEntity)
    requires InstanceOf(ex.exceptionClass, BatchRuntimeException)
    ensures InstanceOf(e.exceptionClass, BatchRuntimeException)
    ensures e.exceptionClass == ex.exceptionClass && e.message == ex.message
  {
    BatchExceptionEntity(ex.exceptionClass, ex.message)
  }

  /** No throwable occurs twice. */
  ghost predicate Distinct(list: seq<Throwable>)
  {
    forall i, j | 0 <= i < j < |list| :: list[i] != list[j]
  }

  /** Each throwable after the first is the cause of the one before it. */
  ghost predicate IsCauseChain(list: seq<Throwable>)
    reads list
  {
    forall k | 0 < k < |list| :: list[k - 1].cause == list[k]
  }

  /** The throwables in `heap` have their causes in `heap` too: a finite heap closed under getCause(). */
  ghost predicate ClosedUnderCause(heap: set<Throwable>)
    reads heap
  {
    forall t | t in heap :: t.cause == null || t.cause in heap
  }

  /**
   * getThrowableList(origin): follows getCause() from `origin`, listing each
   * throwable met, until the cause is null; meeting a listed throwable again
   * throws IllegalArgumentException("Loop chain detected: ", it). `walked` is
   * the list built up to the end or to the repeat. The ghost `heap` is a
   * finite set of throwables closed under getCause(); it bounds the walk.
   */
  method GetThrowableList(origin: Throwable?, ghost heap: set<Throwable>)
    returns (r: Result<seq<Throwable>, JavaException>, ghost walked: seq<Throwable>)
    requires ClosedUnderCause(heap)
    requires origin != null ==> origin in heap
    ensures walked == [] <==> origin == null
    ensures walked != [] ==> walked[0] == origin
    ensures IsCauseChain(walked) && Distinct(walked)
    ensures r.Ok? ==> r.value == walked && (walked != [] ==> walked[|walked| - 1].cause == null)
    ensures r.Err? ==>
      walked != [] && walked[|walked| - 1].cause in walked
      && r.error == IllegalArgument("Loop chain detected: ", walked[|walked| - 1].cause)
    ensures r.Ok? ==>
      (r.value == [] <==> origin == null)
      && (r.value != [] ==> r.value[0] == origin && r.value[|r.value| - 1].cause == null)
      && IsCauseChain(r.value) && Distinct(r.value)
    ensures r.Err? ==> origin != null && r.error.IllegalArgument? && r.error.message == "Loop chain detected: "
  {
    var throwable := origin;
    var list: seq<Throwable> := [];
    ghost var seen: set<Throwable> := {};
    while throwable != null
      invariant list == [] ==> throwable == origin
      invariant origin == null ==> list == []
      invariant list != [] ==> list[0] == origin && list[|list| - 1].cause == throwable
      invariant IsCauseChain(list) && Distinct(list)
      invariant seen == set t | t in list
      invariant seen <= heap
      invariant throwable != null ==> throwable in heap
      decreases heap - seen
    {
      if throwable !in list {
        list := list + [throwable];
        seen := seen + {throwable};
        throwable := throwable.cause;
      } else {
        return Err(IllegalArgument("Loop chain detected: ", throwable)), list;
      }
    }
    return Ok(list), list;
  }

  /**
   * getRootCause(origin): the last throwable of the cause chain, which has no
   * cause, or null for a null origin; a looping chain throws as
   * getThrowableList does.
   */
  method GetRootCause(origin: Throwable?, ghost heap: set<Throwable>)
    returns (r: Result<Throwable?, JavaException>, ghost walked: seq<Throwable>)
    requires ClosedUnderCause(heap)
    requires origin != null ==> origin in heap
    ensures walked == [] <==> origin == null
    ensures walked != [] ==> walked[0] == origin
    ensures IsCauseChain(walked) && Distinct(walked)
    ensures r.Ok? ==> (r.value == null <==> origin == null)
    ensures r.Ok? && r.value != null ==> r.value == walked[|walked| - 1] && r.value.cause == null
    ensures r.Err? ==> walked != [] && walked[|walked| - 1].cause in walked
    ensures r.Err? ==> r.error == IllegalArgument("Loop chain detected: ", walked[|walked| - 1].cause)
  {
    var list;
    list, walked := GetThrowableList(origin, heap);
    match list
    case Err(e) =>
      return Err(e), walked;
    case Ok(l) =>
      return Ok(if |l| == 0 then null else l[|l| - 1]), walked;
  }

  /**
   * A cause chain that ends in a null cause bounds every other chain from the
   * same throwable: that chain is one of its prefixes.
   */
  lemma {:induction false} PrefixOfTerminatingChain(a: seq<Throwable>, b: seq<Throwable>)
    requires IsCauseChain(a) && a != [] && a[|a| - 1].cause == null
    requires IsCauseChain(b) && b != [] && b[0] == a[0]
    ensures |b| <= |a| && b == a[..|b|]
    decreases |b|
  {
    if |b| > 1 {
      var n := |b| - 1;
      PrefixOfTerminatingChain(a, b[..n]);
      assert b[n - 1] == a[n - 1];
      assert b == b[..n] + [b[n]];
    }
  }

  /**
   * getThrowableList never reports a loop on a chain that ends in a null
   * cause: the last throwable of any duplicate-free walk from the same origin
   * has a cause that is not already listed.
   */
  lemma TerminatingChainHasNoLoop(a: seq<Throwable>, b: seq<Throwable>)
    requires IsCauseChain(a) && Distinct(a) && a != [] && a[|a| - 1].cause == null
    requires IsCauseChain(b) && b != [] && b[0] == a[0]
    ensures b[|b| - 1].cause !in b
  {
    PrefixOfTerminatingChain(a, b);
    if |b| < |a| {
      assert b[|b| - 1].cause == a[|b|];
      assert forall k | 0 <= k < |b| :: b[k] == a[k];
    }
  }
}

/**
 * JobService (org.jberet.rest.service): the facade between the REST resources
 * and the batch runtime's JobOperator. It turns the operator's answers into
 * entities, pages and reverses execution lists, and installs a resubmitted job
 * definition before a restart.
 */
module Service {
  import opened Wrappers
  import opened JavaLang
  import opened JavaUtil
  import opened BatchApi
  import opened Entity

  /**
   * The number of executions getJobExecutions returns out of `countAll`:
   * all of them when `count` is not positive, otherwise `count` capped at the total.
   */
  function EffectiveCount(count: int, countAll: nat): (n: nat)
    ensures n <= countAll
    ensures count <= 0 ==> n == countAll
    ensures count > 0 ==> n <= count && (n == count || n == countAll)
  {
    if count <= 0 then countAll
    else if count > countAll then countAll
    else count
  }

  class JobService {
    /** The operator obtained from BatchRuntime, as the answers it gives. */
    const jobOperator: JobOperator
    /** Which kind of object that operator is. */
    const operatorRef: OperatorRef

    constructor (jobOperator: JobOperator, operatorRef: OperatorRef)
      ensures this.jobOperator == jobOperator && this.operatorRef == operatorRef
    {
      this.jobOperator := jobOperator;
      this.operatorRef := operatorRef;
    }

    /** getJobInstance(executionId).getInstanceId() */
    function InstanceIdOf(executionId: int): int
    {
      jobOperator.jobInstanceOf(executionId).instanceId
    }

    /** `e` is a new entity for the execution `executionId`, as start, restart and getJobExecution build it. */
    ghost predicate IsEntityFor(e: JobExecutionEntity, executionId: int)
      reads e
    {
      e.Reflects(jobOperator.jobExecution(executionId), InstanceIdOf(executionId))
      && e.href == None && e.stepExecutions == []
    }

    /** The executions getJobExecutions lists: those of the instance owning `jobExecutionId1` when it is positive, otherwise all. */
    function ExecutionsFor(jobExecutionId1: int): seq<JobExecution>
    {
      var instance := if jobExecutionId1 > 0 then Some(jobOperator.jobInstanceOf(jobExecutionId1)) else None;
      jobOperator.jobExecutions(instance)
    }

    /**
     * `r` holds the last EffectiveCount(count, total) executions of
     * ExecutionsFor(jobExecutionId1), the last one listed first.
     */
    ghost predicate LatestExecutionsFirst(r: seq<JobExecutionEntity?>, count: int, jobExecutionId1: int)
      reads r
    {
      var all := ExecutionsFor(jobExecutionId1);
      |r| == EffectiveCount(count, |all|)
      && forall j | 0 <= j < |r| :: BuiltFrom(r[j], all[|all| - 1 - j])
    }

    /** `e` holds the execution `x` of the list, with the id of the instance owning it. */
    ghost predicate BuiltFrom(e: JobExecutionEntity?, x: JobExecution)
      reads e
    {
      e != null && e.Reflects(x, InstanceIdOf(x.executionId))
    }

    /** `r` holds one entity per running execution of `jobName`, in the reverse of the operator's order. */
    ghost predicate RunningExecutionsReversed(r: seq<JobExecutionEntity?>, jobName: string)
      reads r
    {
      var ids := jobOperator.runningExecutions(jobName);
      |r| == |ids|
      && forall k | 0 <= k < |r| :: BuiltForId(r[k], ids[|ids| - 1 - k])
    }

    /** `e` holds the execution with id `executionId`, with the id of the instance owning it. */
    ghost predicate BuiltForId(e: JobExecutionEntity?, executionId: int)
      reads e
    {
      e != null && e.Reflects(jobOperator.jobExecution(executionId), InstanceIdOf(executionId))
    }

    /** getJobs(): one entity per job name, in iteration order, with its instance count and number of running executions. */
    method GetJobs() returns (result: array<JobEntity>)
      ensures result.Length == |jobOperator.jobNames|
      ensures forall k | 0 <= k < result.Length ::
        var name := jobOperator.jobNames[k];
        result[k] == JobEntity(name, jobOperator.jobInstanceCount(name), |jobOperator.runningExecutions(name)|)
    {
      var jobNames := jobOperator.jobNames;
      // every slot is written below; the placeholder stands for Java's null
      result := new JobEntity[|jobNames|](_ => JobEntity("", 0, 0));
      var i := 0;
      while i < |jobNames|
        invariant 0 <= i <= |jobNames|
        invariant forall k | 0 <= k < i ::
          result[k] == JobEntity(jobNames[k], jobOperator.jobInstanceCount(jobNames[k]), |jobOperator.runningExecutions(jobNames[k])|)
      {
        var jobName := jobNames[i];
        var jobInstanceCount := jobOperator.jobInstanceCount(jobName);
        var runningExecutions := jobOperator.runningExecutions(jobName);
        result[i] := JobEntity(jobName, jobInstanceCount, |runningExecutions|);
        i := i + 1;
      }
    }

    /** getJobInstances(jobName, start, count): one entity per instance the operator returns, in its order. */
    method GetJobInstances(jobName: string, start: int, count: int) returns (jobInstanceData: array<JobInstanceEntity>)
      ensures var instances := jobOperator.jobInstances(jobName, start, count);
        jobInstanceData.Length == |instances|
        && forall k | 0 <= k < |instances| ::
          jobInstanceData[k] == FromJobInstance(instances[k], jobOperator.jobExecutions(Some(instances[k])))
    {
      var jobInstances := jobOperator.jobInstances(jobName, start, count);
      var len := |jobInstances|;
      jobInstanceData := new JobInstanceEntity[len](_ => JobInstanceEntity(0, None, 0, 0));
      for i := 0 to len
        invariant forall k | 0 <= k < i ::
          jobInstanceData[k] == FromJobInstance(jobInstances[k], jobOperator.jobExecutions(Some(jobInstances[k])))
      {
        var e := jobInstances[i];
        jobInstanceData[i] := FromJobInstance(e, jobOperator.jobExecutions(Some(e)));
      }
    }

    /** getJobInstance(executionId): the instance owning the execution, with the number of its executions. */
    function GetJobInstance(executionId: int): (e: JobInstanceEntity)
      ensures e.instanceId == InstanceIdOf(executionId)
      ensures e.numberOfJobExecutions == |jobOperator.jobExecutions(Some(jobOperator.jobInstanceOf(executionId)))|
      ensures e == FromJobInstance(jobOperator.jobInstanceOf(executionId),
                                   jobOperator.jobExecutions(Some(jobOperator.jobInstanceOf(executionId))))
    {
      var jobInstance := jobOperator.jobInstanceOf(executionId);
      FromJobInstance(jobInstance, jobOperator.jobExecutions(Some(jobInstance)))
    }

    /** getJobExecution(jobExecutionId): a new entity for that execution. */
    method GetJobExecution(jobExecutionId: int) returns (e: JobExecutionEntity)
      ensures fresh(e) && IsEntityFor(e, jobExecutionId)
    {
      var jobExecution := jobOperator.jobExecution(jobExecutionId);
      e := new JobExecutionEntity(jobExecution, InstanceIdOf(jobExecutionId));
    }

    /**
     * getJobExecutions(count, jobInstanceId, jobExecutionId1): the latest
     * executions first, at most `count` of them when it is positive.
     * `jobInstanceId` is accepted and not used.
     */
    method GetJobExecutions(count: int, jobInstanceId: int, jobExecutionId1: int)
      returns (jobExecutionEntities: array<JobExecutionEntity?>)
      ensures fresh(jobExecutionEntities)
      ensures LatestExecutionsFirst(jobExecutionEntities[..], count, jobExecutionId1)
      ensures forall j | 0 <= j < jobExecutionEntities.Length ::
        fresh(jobExecutionEntities[j]) && IsNew(jobExecutionEntities[j])
    {
      var jobInstance: Option<JobInstance> := None;
      if jobExecutionId1 > 0 {
        jobInstance := Some(jobOperator.jobInstanceOf(jobExecutionId1));
      }
      var jobExecutions := jobOperator.jobExecutions(jobInstance);
      var countAll := |jobExecutions|;
      var n := count;
      if n <= 0 {
        n := countAll;
      } else if n > countAll {
        n := countAll;
      }
      jobExecutionEntities := LatestEntities(jobExecutions, n);
    }

    /** The loop of getJobExecutions: new entities for the last `n` executions, the last one first. */
    method LatestEntities(jobExecutions: seq<JobExecution>, n: nat) returns (entities: array<JobExecutionEntity?>)
      requires n <= |jobExecutions|
      ensures fresh(entities) && entities.Length == n
      ensures forall k | 0 <= k < n ::
        fresh(entities[k]) && IsNew(entities[k]) && BuiltFrom(entities[k], jobExecutions[|jobExecutions| - 1 - k])
    {
      var countAll := |jobExecutions|;
      entities := new JobExecutionEntity?[n];
      var i, j := countAll - 1, 0;
      while j < n && i >= 0
        invariant 0 <= j <= n && i == countAll - 1 - j
        invariant forall k | 0 <= k < j ::
          fresh(entities[k]) && IsNew(entities[k]) && BuiltFrom(entities[k], jobExecutions[countAll - 1 - k])
      {
        var e := jobExecutions[i];
        entities[j] := new JobExecutionEntity(e, InstanceIdOf(e.executionId));
        i, j := i - 1, j + 1;
      }
    }

    /** A freshly built entity: no href yet and no step executions. */
    ghost predicate IsNew(e: JobExecutionEntity?)
      reads e
    {
      e != null && e.href == None && e.stepExecutions == []
    }

    /** restart(jobExecutionId, restartParameters): a new entity for the execution the restart creates. */
    method Restart(jobExecutionId: int, restartParameters: Properties?) returns (e: JobExecutionEntity)
      ensures fresh(e) && IsEntityFor(e, jobOperator.restart(jobExecutionId, Contents(restartParameters)))
    {
      var restartExecutionId := jobOperator.restart(jobExecutionId, Contents(restartParameters));
      e := new JobExecutionEntity(jobOperator.jobExecution(restartExecutionId), InstanceIdOf(restartExecutionId));
    }

    /**
     * unwrapJobOperator(): the delegate of a DelegatingJobOperator, otherwise
     * the operator itself, cast to AbstractJobOperator; the cast fails for
     * any other kind of operator.
     */
    function UnwrapJobOperator(): (r: Result<OperatorRef, JavaException>)
      ensures r.Ok? ==> r.value.AbstractOperator?
      ensures r.Ok? ==> r.value == (if operatorRef.DelegatingOperator? then operatorRef.delegate else operatorRef)
      ensures r.Err? <==> !(if operatorRef.DelegatingOperator? then operatorRef.delegate else operatorRef).AbstractOperator?
      ensures r.Err? ==> r.error == ClassCast(AbstractJobOperatorClass)
    {
      var abstractJobOperator := if operatorRef.DelegatingOperator? then operatorRef.delegate else operatorRef;
      if abstractJobOperator.AbstractOperator? then Ok(abstractJobOperator) else Err(ClassCast(AbstractJobOperatorClass))
    }

    /**
     * resubmit(jobDefinition, jobExecutionId, restartParameters): a definition
     * longer than 60 characters replaces the job that the execution's instance
     * will run, then the execution is restarted; a shorter or missing
     * definition leaves the job as it was and only restarts. `jobInstance` is
     * the JobInstanceImpl that the unwrapped operator returns for
     * getJobInstance(jobExecutionId).
     */
    method Resubmit(jobDefinition: Option<string>, jobExecutionId: int, restartParameters: Properties?,
                    jobInstance: JobInstanceImpl)
      returns (r: Result<JobExecutionEntity, JavaException>)
      modifies jobInstance
      ensures var installs := jobDefinition.Some? && |jobDefinition.value| > 60;
        (installs && UnwrapJobOperator().Ok? ==> jobInstance.unsubstitutedJob == Some(JsonJob(jobDefinition.value)))
        && (!(installs && UnwrapJobOperator().Ok?) ==>
          jobInstance.unsubstitutedJob == old(jobInstance.unsubstitutedJob))
        && (r.Err? <==> installs && UnwrapJobOperator().Err?)
        && (r.Err? ==> r.error == UnwrapJobOperator().error)
        && (r.Ok? ==> fresh(r.value) && IsEntityFor(r.value, jobOperator.restart(jobExecutionId, Contents(restartParameters))))
    {
      if jobDefinition.Some? && |jobDefinition.value| > 60 {
        var job := JsonJob(jobDefinition.value);
        var abstractJobOperator := UnwrapJobOperator();
        if abstractJobOperator.Err? {
          return Err(abstractJobOperator.error);
        }
        jobInstance.unsubstitutedJob := Some(job);
      }
      var e := Restart(jobExecutionId, restartParameters);
      return Ok(e);
    }

    /** getRunningExecutions(jobName): one new entity per running execution, the last id first. */
    method GetRunningExecutions(jobName: string) returns (runningExecutions: array<JobExecutionEntity?>)
      ensures fresh(runningExecutions)
      ensures RunningExecutionsReversed(runningExecutions[..], jobName)
      ensures forall k | 0 <= k < runningExecutions.Length ::
        fresh(runningExecutions[k]) && IsNew(runningExecutions[k])
    {
      var executionIds := jobOperator.runningExecutions(jobName);
      runningExecutions := ReversedEntities(executionIds);
    }

    /** The loop of getRunningExecutions: a new entity per id, the last id first. */
    method ReversedEntities(executionIds: seq<int>) returns (entities: array<JobExecutionEntity?>)
      ensures fresh(entities) && entities.Length == |executionIds|
      ensures forall k | 0 <= k < |executionIds| ::
        fresh(entities[k]) && IsNew(entities[k]) && BuiltForId(entities[k], executionIds[|executionIds| - 1 - k])
    {
      var len := |executionIds|;
      entities := new JobExecutionEntity?[len];
      var i := len - 1;
      while i >= 0
        invariant -1 <= i < len
        invariant forall k | 0 <= k < len - 1 - i ::
          fresh(entities[k]) && IsNew(entities[k]) && BuiltForId(entities[k], executionIds[len - 1 - k])
      {
        var e := executionIds[i];
        entities[len - 1 - i] := new JobExecutionEntity(jobOperator.jobExecution(e), InstanceIdOf(e));
        i := i - 1;
      }
    }

    /** getStepExecutions(jobExecutionId): one entity per step execution, in the operator's order. */
    method GetStepExecutions(jobExecutionId: int) returns (stepExecutionData: array<StepExecutionEntity?>)
      ensures var steps := jobOperator.stepExecutions(jobExecutionId);
        stepExecutionData.Length == |steps|
        && forall k | 0 <= k < |steps| :: stepExecutionData[k] != null && stepExecutionData[k].Reflects(steps[k])
    {
      var stepExecutions := jobOperator.stepExecutions(jobExecutionId);
      var len := |stepExecutions|;
      stepExecutionData := new StepExecutionEntity?[len];
      for i := 0 to len
        invariant forall k | 0 <= k < i :: stepExecutionData[k] != null && stepExecutionData[k].Reflects(stepExecutions[k])
      {
        stepExecutionData[i] := new StepExecutionEntity(stepExecutions[i]);
      }
    }
  }
}

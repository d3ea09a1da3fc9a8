/**
 * The batch runtime the REST layer talks to (jakarta.batch and org.jberet),
 * seen only through what its calls return. Every JobOperator query becomes a
 * field of a snapshot value; the runtime's own behaviour is not modelled.
 */
module BatchApi {
  import opened Wrappers
  import opened JavaUtil

  /** java.util.Date, nullable, as milliseconds since the epoch. */
  type Date = Option<int>

  datatype BatchStatus = Starting | Started | Stopping | Stopped | Failed | Completed | Abandoned

  datatype MetricType =
    | ReadCount | WriteCount | CommitCount | RollbackCount
    | ReadSkipCount | ProcessSkipCount | FilterCount | WriteSkipCount

  /** jakarta.batch.runtime.Metric */
  datatype Metric = Metric(metricType: MetricType, value: int)

  /** jakarta.batch.runtime.JobInstance */
  datatype JobInstance = JobInstance(instanceId: int, jobName: Option<string>)

  /** jakarta.batch.runtime.JobExecution; the job parameters are a shared Properties object. */
  datatype JobExecution = JobExecution(
    executionId: int,
    jobName: Option<string>,
    batchStatus: Option<BatchStatus>,
    startTime: Date,
    endTime: Date,
    exitStatus: Option<string>,
    createTime: Date,
    lastUpdatedTime: Date,
    jobParameters: Properties?)

  /** jakarta.batch.runtime.StepExecution; getMetrics() may return null, and is only read. */
  datatype StepExecution = StepExecution(
    stepExecutionId: int,
    stepName: Option<string>,
    batchStatus: Option<BatchStatus>,
    startTime: Date,
    endTime: Date,
    exitStatus: Option<string>,
    metrics: Option<seq<Metric>>)

  /** org.jberet.job.model.Job, the result of JsonJobMapper.toJob (the mapper is not modelled). */
  datatype Job = JsonJob(definition: string)

  /** org.jberet.runtime.JobInstanceImpl: only the job definition that a restart will run. */
  class JobInstanceImpl {
    var unsubstitutedJob: Option<Job>

    constructor (job: Option<Job>)
      ensures unsubstitutedJob == job
    {
      unsubstitutedJob := job;
    }
  }

  /** org.jberet.schedule.JobScheduleConfig: the two fields the REST layer fills in. */
  class JobScheduleConfig {
    var jobName: Option<string>
    var jobExecutionId: int

    constructor (jobName: Option<string>, jobExecutionId: int)
      ensures this.jobName == jobName && this.jobExecutionId == jobExecutionId
    {
      this.jobName := jobName;
      this.jobExecutionId := jobExecutionId;
    }
  }

  /** org.jberet.schedule.JobSchedule, opaque here. */
  class JobSchedule {
    const id: string

    constructor (id: string)
      ensures this.id == id
    {
      this.id := id;
    }
  }

  /**
   * The answers of jakarta.batch.operations.JobOperator, one field per query:
   * getJobNames() in iteration order, getJobInstanceCount(name),
   * getRunningExecutions(name), getJobInstances(name, start, count),
   * getJobInstance(executionId), getJobExecutions(instance or null for all),
   * getJobExecution(id), getStepExecutions(id), and restart(id, parameters)
   * giving the new execution id.
   */
  datatype JobOperator = JobOperator(
    jobNames: seq<string>,
    jobInstanceCount: string -> int,
    runningExecutions: string -> seq<int>,
    jobInstances: (string, int, int) -> seq<JobInstance>,
    jobInstanceOf: int -> JobInstance,
    jobExecutions: Option<JobInstance> -> seq<JobExecution>,
    jobExecution: int -> JobExecution,
    stepExecutions: int -> seq<StepExecution>,
    restart: (int, Option<map<string, string>>) -> int)

  /**
   * Which JobOperator object BatchRuntime hands out: an AbstractJobOperator
   * (JBeret's own), a DelegatingJobOperator wrapping another operator, or
   * some other implementation.
   */
  datatype OperatorRef =
    | AbstractOperator(className: string)
    | DelegatingOperator(delegate: OperatorRef)
    | OtherOperator(className: string)

  const AbstractJobOperatorClass := "org.jberet.operations.AbstractJobOperator"

  // Exception classes of jakarta.batch.operations, by fully qualified name.
  const BatchRuntimeException := "jakarta.batch.operations.BatchRuntimeException"
  const NoSuchJobExecutionException := "jakarta.batch.operations.NoSuchJobExecutionException"
  const NoSuchJobInstanceException := "jakarta.batch.operations.NoSuchJobInstanceException"
  const NoSuchJobException := "jakarta.batch.operations.NoSuchJobException"
  const JobExecutionIsRunningException := "jakarta.batch.operations.JobExecutionIsRunningException"
  const JobExecutionNotRunningException := "jakarta.batch.operations.JobExecutionNotRunningException"
  const JobExecutionNotMostRecentException := "jakarta.batch.operations.JobExecutionNotMostRecentException"
  const JobExecutionAlreadyCompleteException := "jakarta.batch.operations.JobExecutionAlreadyCompleteException"
  const JobSecurityException := "jakarta.batch.operations.JobSecurityException"
  const JobStartException := "jakarta.batch.operations.JobStartException"
  const JobRestartException := "jakarta.batch.operations.JobRestartException"
}

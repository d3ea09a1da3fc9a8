/**
 * BatchExceptionMapper (org.jberet.rest.exception): turns a BatchRuntimeException
 * thrown by an endpoint into an HTTP response whose body describes it.
 */
module RestException {
  import opened JavaLang
  import opened BatchApi
  import opened Entity

  /** The three statuses the mapper uses. */
  datatype Status = BadRequest | Forbidden | InternalServerError

  function StatusCode(s: Status): (code: int)
    ensures 400 <= code < 600
    ensures code < 500 <==> s != InternalServerError
  {
    match s
    case BadRequest => 400
    case Forbidden => 403
    case InternalServerError => 500
  }

  /** A response: its status and its BatchExceptionEntity body. */
  datatype Response = Response(status: Status, entity: BatchExceptionEntity)

  /** The exceptions that report a missing job, instance or execution, or an execution in the wrong state. */
  const ClientErrorClasses: seq<string> := [
    NoSuchJobExecutionException, NoSuchJobInstanceException, NoSuchJobException,
    JobExecutionIsRunningException, JobExecutionNotRunningException,
    JobExecutionNotMostRecentException, JobExecutionAlreadyCompleteException
  ]

  /** The instanceof chain of toResponse. */
  function StatusOf(t: ExceptionType): (s: Status)
    ensures s == BadRequest <==> exists c | c in ClientErrorClasses :: InstanceOf(t, c)
    ensures s == Forbidden <==>
      (forall c | c in ClientErrorClasses :: !InstanceOf(t, c)) && InstanceOf(t, JobSecurityException)
    ensures s == InternalServerError <==>
      (forall c | c in ClientErrorClasses :: !InstanceOf(t, c)) && !InstanceOf(t, JobSecurityException)
  {
    if InstanceOf(t, NoSuchJobExecutionException)
      || InstanceOf(t, NoSuchJobInstanceException)
      || InstanceOf(t, NoSuchJobException)
      || InstanceOf(t, JobExecutionIsRunningException)
      || InstanceOf(t, JobExecutionNotRunningException)
      || InstanceOf(t, JobExecutionNotMostRecentException)
      || InstanceOf(t, JobExecutionAlreadyCompleteException)
    then BadRequest
    else if InstanceOf(t, JobSecurityException) then Forbidden
    else InternalServerError
  }

  /** toResponse(exception): the status StatusOf picks for the exception's class, and a body describing the same exception. */
  function ToResponse(exception: Throwable): (r: Response)
    requires InstanceOf(exception.exceptionClass, BatchRuntimeException)
    ensures r.status == StatusOf(exception.exceptionClass)
    ensures r.entity.exceptionClass == exception.exceptionClass && r.entity.message == exception.message
  {
    Response(StatusOf(exception.exceptionClass), FromException(exception))
  }

  /** A class of jakarta.batch.operations: a direct subclass of BatchRuntimeException. */
  function OperationsException(name: string): ExceptionType
  {
    ExceptionType(name, [BatchRuntimeException, "java.lang.RuntimeException", "java.lang.Exception", "java.lang.Throwable"])
  }

  /** The seven lookup and state-conflict exceptions of JobOperator are client errors. */
  lemma ClientErrorsAreBadRequest()
    ensures forall c | c in ClientErrorClasses :: StatusOf(OperationsException(c)) == BadRequest
  {
  }

  /** A direct subclass of BatchRuntimeException outside the client-error list is not an instance of any of them. */
  lemma NotAClientError(t: ExceptionType)
    requires t.superTypes == OperationsException(t.name).superTypes
    requires t.name !in ClientErrorClasses
    ensures forall c | c in ClientErrorClasses :: !InstanceOf(t, c)
  {
  }

  /** A security refusal is 403. */
  lemma SecurityExceptionIsForbidden()
    ensures StatusOf(OperationsException(JobSecurityException)) == Forbidden
  {
    NotAClientError(OperationsException(JobSecurityException));
  }

  /** A failed start is a server error. */
  lemma StartExceptionIsServerError()
    ensures StatusOf(OperationsException(JobStartException)) == InternalServerError
  {
    NotAClientError(OperationsException(JobStartException));
  }

  /** A refused restart is a server error. */
  lemma RestartExceptionIsServerError()
    ensures StatusOf(OperationsException(JobRestartException)) == InternalServerError
  {
    NotAClientError(OperationsException(JobRestartException));
  }

  /** A subclass keeps its superclass's client-error status, whatever else it extends. */
  lemma SubclassOfClientErrorIsBadRequest(t: ExceptionType, c: string)
    requires c in ClientErrorClasses && c in t.superTypes
    ensures StatusCode(StatusOf(t)) == 400
  {
  }
}

/**
 * Java throwables as values: a class, a message and an optional cause, plus
 * the cause-chain walk of commons-lang `ExceptionUtils.getRootCause`.
 */
module Throwables {
  import opened Wrappers

  /** The exception classes the orchestration code distinguishes. */
  datatype Kind =
    | ExtraServiceError            // io.brooklyn.ambari.service.ExtraServiceException
    | ExecutionError               // java.util.concurrent.ExecutionException
    | InterruptedError             // java.lang.InterruptedException
    | OtherError(className: string)

  datatype Exn = Exn(kind: Kind, message: string, cause: Option<Exn>)

  function ClassName(k: Kind): string {
    match k
    case ExtraServiceError => "io.brooklyn.ambari.service.ExtraServiceException"
    case ExecutionError => "java.util.concurrent.ExecutionException"
    case InterruptedError => "java.lang.InterruptedException"
    case OtherError(n) => n
  }

  /** `Throwable.toString()`: the class name, a colon and the message. */
  function Describe(e: Exn): string {
    ClassName(e.kind) + ": " + e.message
  }

  /** `new ExtraServiceException(message)`: no cause of its own. */
  function ServiceError(message: string): (e: Exn)
    ensures e.kind == ExtraServiceError && e.message == message && e.cause.None?
  {
    Exn(ExtraServiceError, message, None)
  }

  /** `ExceptionUtils.getThrowableList`: the throwable followed by its causes, outermost first. */
  function Chain(e: Exn): (c: seq<Exn>)
    ensures |c| >= 1 && c[0] == e
  {
    match e.cause
    case None => [e]
    case Some(inner) => [e] + Chain(inner)
  }

  /** `ExceptionUtils.getRootCause`: the last element of the chain, or null when there is no cause. */
  function RootCause(e: Exn): Option<Exn> {
    var c := Chain(e);
    if |c| < 2 then None else Some(c[|c| - 1])
  }

  /** The throwable at the bottom of the cause chain, the throwable itself when it has none. */
  function Deepest(e: Exn): Exn {
    match e.cause
    case None => e
    case Some(inner) => Deepest(inner)
  }

  /** The chain ends in the deepest throwable, which has no cause. */
  lemma {:induction false} ChainEndsInDeepest(e: Exn)
    ensures Chain(e)[|Chain(e)| - 1] == Deepest(e)
    ensures Deepest(e).cause.None?
  {
    match e.cause
    case None =>
    case Some(inner) => ChainEndsInDeepest(inner);
  }

  /**
   * getRootCause is null exactly for a throwable without a cause; otherwise it
   * is the deepest cause, which itself has none.
   */
  lemma RootCauseIsDeepest(e: Exn)
    ensures RootCause(e).None? <==> e.cause.None?
    ensures e.cause.Some? ==> RootCause(e) == Some(Deepest(e)) && Deepest(e).cause.None?
  {
    ChainEndsInDeepest(e);
  }

  /** Wrapping a throwable adds a link on top and leaves the root where it was. */
  lemma WrappedRootCause(k: Kind, message: string, inner: Exn)
    ensures RootCause(Exn(k, message, Some(inner))) == Some(Deepest(inner))
  {
    RootCauseIsDeepest(Exn(k, message, Some(inner)));
  }
}

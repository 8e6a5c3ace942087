/** How provider failures are classified, retried and recorded. */
module ProviderErrors {

  datatype Sentinel = ContentPolicy | AIProvider | PDFImageModeUnavailable | Canceled | DeadlineExceeded | Unlisted

  /** An error chain as its callers see it: the first AppError's code, the sentinels it wraps, its wording. */
  datatype Failure = Failure(code: string, marks: set<Sentinel>, overflowWording: bool)

  const PROVIDER_5XX := "provider_5xx"

  /** Applied to what the provider client returned synchronously, before the start classification. */
  function ClassifyProviderError(err: Failure, hadImages: bool): Failure {
    if !hadImages || !err.overflowWording then err
    else Failure("pdf_image_mode_unavailable", {PDFImageModeUnavailable}, false)
  }

  function ClassifyProviderStartErr(err: Failure): Failure {
    if ContentPolicy in err.marks || AIProvider in err.marks || PDFImageModeUnavailable in err.marks then err
    else Failure(PROVIDER_5XX, {AIProvider}, false)
  }

  function StartFailure(err: Failure, hadImages: bool): Failure {
    ClassifyProviderStartErr(ClassifyProviderError(err, hadImages))
  }

  predicate Transient(code: string) {
    code == PROVIDER_5XX || code == "provider_timeout" || code == "provider_rate_limit"
  }

  predicate Retryable(err: Failure) {
    Transient(err.code)
  }

  datatype Status = Running | Complete | Failed | Cancelled

  function StatusFor(err: Failure): Status {
    if Canceled in err.marks then Cancelled else Failed
  }

  function PersistedKind(err: Failure): string {
    if Canceled in err.marks then "cancelled"
    else if ContentPolicy in err.marks then "content_policy"
    else if AIProvider in err.marks then (if err.code != "" then err.code else PROVIDER_5XX)
    else "internal"
  }

  predicate Recognised(err: Failure) {
    ContentPolicy in err.marks || AIProvider in err.marks || PDFImageModeUnavailable in err.marks
  }

  /**
   A start failure is retried exactly when it is not an image overflow and is
   either a transient code or not one of the client's own errors at all.
   */
  lemma RetriedExactlyWhen(err: Failure, hadImages: bool)
    ensures Retryable(StartFailure(err, hadImages))
            <==> !(hadImages && err.overflowWording) && (Recognised(err) ==> Transient(err.code))
  {
  }

  /** A start failure that is recorded as a cancellation. */
  predicate RecordedAsCancelled(err: Failure, hadImages: bool) {
    Canceled in err.marks && Recognised(err) && !(hadImages && err.overflowWording)
  }

  lemma CancelledAtStartExactlyWhen(err: Failure, hadImages: bool)
    ensures StatusFor(StartFailure(err, hadImages)) == Cancelled <==> RecordedAsCancelled(err, hadImages)
    ensures PersistedKind(StartFailure(err, hadImages)) == "cancelled" ==>
              RecordedAsCancelled(err, hadImages) || err.code == "cancelled"
  {
  }

  /** What the HTTP client can run into before it streams: a request it cannot build, a failed transport, a refusal. */
  datatype ClientError =
    | Unbuilt(overflowWording: bool)
    | Transport(cancelled: bool, overflowWording: bool)
    | HttpStatus(status: int)

  function Reported(e: ClientError): Failure {
    match e
    case Unbuilt(wording) => Failure("", {Unlisted}, wording)
    case Transport(_, wording) => Failure("provider_timeout", {AIProvider}, wording)
    case HttpStatus(status) =>
      if status == 429 then Failure("provider_rate_limit", {AIProvider}, false)
      else if status == 422 then Failure("content_policy", {ContentPolicy}, false)
      else if 400 <= status < 500 then Failure("bad_request", {AIProvider}, status == 413)
      else Failure(PROVIDER_5XX, {AIProvider}, false)
  }

  /**
   The client hides a cancellation: whatever it runs into, the start is recorded
   as failed. A cancelled transport is recorded, and retried, as a timeout,
   unless images were sent and its wording hints at their size.
   */
  lemma ClientMasksCancellation(e: ClientError, hadImages: bool)
    ensures StatusFor(StartFailure(Reported(e), hadImages)) == Failed
    ensures e.Transport? && e.cancelled ==>
              var err := StartFailure(Reported(e), hadImages);
              && (Retryable(err) <==> !(hadImages && e.overflowWording))
              && (Retryable(err) ==> PersistedKind(err) == "provider_timeout")
  {
    CancelledAtStartExactlyWhen(Reported(e), hadImages);
  }

  /**
   What an HTTP status leads to: a rate limit or a server failure is asked again,
   a refusal is not, and each is recorded under its own kind. With images, 413
   means that they were too large.
   */
  lemma HttpStatusDecides(status: int, hadImages: bool)
    ensures var err := StartFailure(Reported(HttpStatus(status)), hadImages);
            && (Retryable(err) <==> status == 429 || !(400 <= status < 500))
            && PersistedKind(err) == (if hadImages && status == 413 then "internal"
                                      else if status == 429 then "provider_rate_limit"
                                      else if status == 422 then "content_policy"
                                      else if 400 <= status < 500 then "bad_request"
                                      else "provider_5xx")
            && StatusFor(err) == Failed
  {
  }

  /** A failed transport is asked again as a timeout, a request that cannot be built as a server failure. */
  lemma OtherFailuresDecide(cancelled: bool, wording: bool, hadImages: bool)
    ensures var transport := StartFailure(Reported(Transport(cancelled, wording)), hadImages);
            var unbuilt := StartFailure(Reported(Unbuilt(wording)), hadImages);
            if hadImages && wording
            then !Retryable(transport) && !Retryable(unbuilt)
                 && PersistedKind(transport) == PersistedKind(unbuilt) == "internal"
            else Retryable(transport) && PersistedKind(transport) == "provider_timeout"
                 && Retryable(unbuilt) && PersistedKind(unbuilt) == "provider_5xx"
  {
  }

  /** Once streaming, the context's end is the only failure; it is never retried. */
  lemma ContextEndIsFinal(cause: Sentinel)
    ensures !Retryable(Failure("", {cause}, false))
    ensures StatusFor(Failure("", {cause}, false)) == if cause == Canceled then Cancelled else Failed
    ensures PersistedKind(Failure("", {Canceled}, false)) == "cancelled"
    ensures PersistedKind(Failure("", {DeadlineExceeded}, false)) == "internal"
  {
  }
}

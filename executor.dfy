/** Worker-count normalization of the actor executor. */
module Executor {
  import opened Wrappers

  /** The integer fields of `normalize_concurrency`'s result. */
  datatype Concurrency = Concurrency(
    concurrency: int,
    numAsyncWorkers: int,
    numThreadWorkers: int,
    asyncPendingLimit: int)

  /** The exception `normalize_concurrency` can raise. */
  datatype ExecutorError = ZeroDivisionError

  /** `normalize_concurrency`: about one asyncio worker per 30 requested
      workers, the rest as threads, and a pending limit of a tenth of the
      total but at least 10. Python's floor division agrees with Dafny's `/`
      for the positive divisors used here. The float `async_concurrency`
      divides by the asyncio worker count, which is 0 for a request from -30
      to -1. */
  function NormalizeConcurrency(c: int): (r: Result<Concurrency, ExecutorError>)
    ensures r.Err? <==> -30 <= c < 0
    ensures r.Ok? ==> r.value.numThreadWorkers >= 1
    ensures r.Ok? && c >= 0 ==> r.value.numAsyncWorkers >= 1
    ensures r.Ok? ==> r.value.concurrency == r.value.numAsyncWorkers + r.value.numThreadWorkers
    ensures c >= 2 ==> r.Ok? && r.value.concurrency == c
    ensures 0 <= c < 2 ==> r.Ok? && r.value.concurrency == 2
    ensures r.Ok? ==> r.value.asyncPendingLimit >= 10 && r.value.asyncPendingLimit >= r.value.concurrency / 10
  {
    var numAsync := c / 30 + 1;
    var numThread := if c - numAsync > 1 then c - numAsync else 1;
    var total := numAsync + numThread;
    if numAsync == 0 then Err(ZeroDivisionError)
    else Ok(Concurrency(total, numAsync, numThread, if total / 10 > 10 then total / 10 else 10))
  }

  /** For a non-negative request, normalizing the normalized total changes
      nothing. */
  lemma {:induction false} NormalizeIdempotent(c: int)
    requires c >= 0
    ensures NormalizeConcurrency(NormalizeConcurrency(c).value.concurrency) == NormalizeConcurrency(c)
  {
  }

  /** Negative requests: -1 raises, and -31 gets a single thread worker, no
      asyncio worker at all (-1 of them) and a total of 0. */
  lemma {:induction false} NegativeRequest()
    ensures NormalizeConcurrency(-1) == Err(ZeroDivisionError)
    ensures NormalizeConcurrency(-31) == Ok(Concurrency(0, -1, 1, 10))
  {
  }

  /** From two workers on, threads are never fewer than asyncio workers. */
  lemma {:induction false} ThreadsDominate(c: int)
    requires c >= 2
    ensures NormalizeConcurrency(c).value.numAsyncWorkers <= NormalizeConcurrency(c).value.numThreadWorkers
  {
  }

  /** The asyncio worker count grows by one every 30 requested workers. */
  lemma {:induction false} AsyncWorkersStep(c: int)
    requires c >= 0
    ensures NormalizeConcurrency(c + 30).value.numAsyncWorkers == NormalizeConcurrency(c).value.numAsyncWorkers + 1
  {
  }
}

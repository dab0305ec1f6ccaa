/** The provider switch (chibi/llm/manager.py): a primary provider that is
    skipped after too many consecutive failures, and a fallback. The
    providers themselves are outside the model; what each call on them did
    (returned a value or raised) is a parameter of `Generate`. */
module LLMManagement {
  import opened Wrappers

  /** The primary is asked at all: fewer than `maxFailures` failures. */
  predicate PrimaryTried(failures: int, maxFailures: int) {
    failures < maxFailures
  }

  /** The primary was asked, reported itself available and answered. */
  predicate PrimaryAnswered<R>(available: Call<bool>, result: Call<R>) {
    available == Returned(true) && result.Returned?
  }

  /** The primary was asked and raised, in `is_available` or in `generate`. */
  predicate PrimaryRaised<R>(available: Call<bool>, result: Call<R>) {
    available.Raised? || (available == Returned(true) && result.Raised?)
  }

  /** What the fallback path returns. */
  function FallbackAnswer<R>(available: Call<bool>, result: Call<R>): (r: Option<R>)
    ensures r.Some? <==> available == Returned(true) && result.Returned?
  {
    if available == Returned(true) && result.Returned? then Some(result.value) else None
  }

  class LLMManager<R> {
    var primaryFailures: int
    const maxFailures: int

    constructor(maxFailuresBeforeSkip: int)
      ensures primaryFailures == 0 && maxFailures == maxFailuresBeforeSkip
    {
      primaryFailures := 0;
      maxFailures := maxFailuresBeforeSkip;
    }

    /** `generate`: the primary's answer when it is tried and answers
        (which clears the failure count); otherwise the fallback's answer,
        after counting one more failure if the primary raised. */
    method Generate(primaryAvailable: Call<bool>, primaryResult: Call<R>,
                    fallbackAvailable: Call<bool>, fallbackResult: Call<R>)
      returns (r: Option<R>)
      modifies this
      ensures PrimaryTried(old(primaryFailures), maxFailures) && PrimaryAnswered(primaryAvailable, primaryResult) ==>
        r == Some(primaryResult.value) && primaryFailures == 0
      ensures PrimaryTried(old(primaryFailures), maxFailures) && PrimaryRaised(primaryAvailable, primaryResult) ==>
        r == FallbackAnswer(fallbackAvailable, fallbackResult) && primaryFailures == old(primaryFailures) + 1
      ensures !PrimaryTried(old(primaryFailures), maxFailures) || primaryAvailable == Returned(false) ==>
        r == FallbackAnswer(fallbackAvailable, fallbackResult) && primaryFailures == old(primaryFailures)
      ensures 0 <= old(primaryFailures) <= maxFailures ==> 0 <= primaryFailures <= maxFailures
    {
      if primaryFailures < maxFailures {
        match primaryAvailable {
          case Raised(_) =>
            primaryFailures := primaryFailures + 1;
          case Returned(up) =>
            if up {
              match primaryResult {
                case Raised(_) =>
                  primaryFailures := primaryFailures + 1;
                case Returned(response) =>
                  primaryFailures := 0;
                  return Some(response);
              }
            }
        }
      }
      r := TryFallback(fallbackAvailable, fallbackResult);
    }

    /** The fallback half of `generate`, which never touches the count. */
    method TryFallback(available: Call<bool>, result: Call<R>) returns (r: Option<R>)
      ensures r == FallbackAnswer(available, result)
    {
      match available {
        case Raised(_) => r := None;
        case Returned(up) =>
          if !up {
            r := None;
          } else {
            match result {
              case Raised(_) => r := None;
              case Returned(response) => r := Some(response);
            }
          }
      }
    }

    /** `reset_primary_failures`. */
    method ResetPrimaryFailures()
      modifies this
      ensures primaryFailures == 0
    {
      primaryFailures := 0;
    }
  }

  /** A tried primary either answers, raises or reports itself down, and
      never both answers and raises: the three cases of `Generate` cover
      every call. */
  lemma PrimaryOutcomesPartition<R>(pa: Call<bool>, pr: Call<R>)
    ensures PrimaryAnswered(pa, pr) ==> !PrimaryRaised(pa, pr)
    ensures PrimaryAnswered(pa, pr) || PrimaryRaised(pa, pr) || pa == Returned(false)
  {
    if pa.Returned? && pa.value {
      assert pa == Returned(true);
    }
  }
}

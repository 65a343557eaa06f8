/** The Lens client's bounded retry of one HTTP request. */
module Retry {
  import opened Basics
  import opened GoStrings
  import opened Backoff

  datatype Attempt =
    | Data(data: string)
    | HttpError(status: int, body: string)
    | OtherError

  /** Rate limits (429, or a 400 that says so), server errors and failures that
      never got a status are worth another try. */
  predicate Retryable(f: Fold, a: Attempt) {
    match a
    case Data(_) => false
    case HttpError(status, body) =>
      var text := ToLower(f, body);
      || status == 429 || status >= 500
      || (status == 400 && (Contains(text, "rate limit") || Contains(text, "rate-limit")
                            || Contains(text, "over limit")))
    case OtherError => true
  }

  datatype Verdict = Success(data: string) | GaveUp(last: Attempt) | SleepFailed

  /** The outside world of a request: the result of each attempt and whether the
      wait after it ends normally, both counted from 1. */
  datatype World = World(result: nat -> Attempt, slept: nat -> bool)

  datatype Limits = Limits(maxAttempts: int, min: int64, max: int64)

  ghost predicate ValidLimits(l: Limits) {
    l.maxAttempts >= 1 && Bounds(l.min, l.max)
  }

  /** The limits a configuration leads to: zeros mean defaults, and what is left
      outside the bounds is refused. */
  function Settle(maxAttempts: int, min: int64, max: int64): (r: Option<Limits>)
    ensures r.Some? ==> ValidLimits(r.value)
    ensures r.Some? ==> r.value == Limits(if maxAttempts == 0 then 4 else maxAttempts,
                                          if min == 0 then 1_000_000_000 else min,
                                          if max == 0 then 30_000_000_000 else max)
    ensures r.None? <==>
      || maxAttempts < 0 || min < 0
      || (if max == 0 then 30_000_000_000 else max) < (if min == 0 then 1_000_000_000 else min)
  {
    var attempts := if maxAttempts == 0 then 4 else maxAttempts;
    var lower: int64 := if min == 0 then 1_000_000_000 else min;
    var upper: int64 := if max == 0 then 30_000_000_000 else max;
    if attempts < 1 || lower < 0 || upper < lower then None else Some(Limits(attempts, lower, upper))
  }

  /** Attempts before number n all failed in a way worth another try, and the wait
      after each ended normally. */
  ghost predicate Reaches(f: Fold, w: World, n: nat) {
    forall k :: 1 <= k < n ==> Retryable(f, w.result(k)) && w.slept(k)
  }

  /** What a finished request must look like, for the number of attempts it made. */
  ghost predicate Correct(f: Fold, l: Limits, w: World, n: nat, v: Verdict) {
    && 1 <= n <= l.maxAttempts
    && Reaches(f, w, n)
    && match v
       case Success(data) => w.result(n) == Data(data)
       case GaveUp(last) => last == w.result(n) && !last.Data? && (n == l.maxAttempts || !Retryable(f, last))
       case SleepFailed => n < l.maxAttempts && Retryable(f, w.result(n)) && !w.slept(n)
  }

  function Sum(xs: seq<int>): int {
    if xs == [] then 0 else Sum(xs[..|xs| - 1]) + xs[|xs| - 1]
  }

  lemma {:induction false} SumBound(xs: seq<int>, bound: int)
    requires forall i :: 0 <= i < |xs| ==> xs[i] <= bound
    ensures Sum(xs) <= |xs| * bound
  {
    if xs != [] {
      SumBound(xs[..|xs| - 1], bound);
    }
  }

  /** The retry loop.  It also reports how many attempts it made and how long it
      waited after each. */
  method Do(f: Fold, l: Limits, w: World) returns (v: Verdict, n: nat, waits: seq<int>)
    requires ValidLimits(l)
    ensures Correct(f, l, w, n, v)
    ensures |waits| == if v.SleepFailed? then n else n - 1
    ensures forall i :: 0 <= i < |waits| ==> waits[i] == Wait(l.min as int, l.max as int, i + 1)
    ensures Sum(waits) <= (l.maxAttempts - 1) * l.max as int
  {
    waits := [];
    var attempt := 1;
    var done := false;
    v, n := SleepFailed, 1;
    while !done
      invariant 1 <= attempt <= l.maxAttempts
      invariant !done ==> Reaches(f, w, attempt) && |waits| == attempt - 1
      invariant done ==> Correct(f, l, w, n, v) && |waits| == if v.SleepFailed? then n else n - 1
      invariant forall i :: 0 <= i < |waits| ==> waits[i] == Wait(l.min as int, l.max as int, i + 1)
      decreases l.maxAttempts - attempt, !done
    {
      var result := w.result(attempt);
      n := attempt;
      if result.Data? {
        v, done := Success(result.data), true;
      } else if attempt == l.maxAttempts || !Retryable(f, result) {
        v, done := GaveUp(result), true;
      } else {
        var wait, _ := Compute(l.min, l.max, attempt);
        waits := waits + [wait as int];
        if !w.slept(attempt) {
          v, done := SleepFailed, true;
        } else {
          attempt := attempt + 1;
        }
      }
    }
    WaitsWithinBudget(l.min as int, l.max as int, waits, l.maxAttempts - 1);
  }

  lemma WaitsWithinBudget(min: int, max: int, waits: seq<int>, budget: int)
    requires 0 < min <= max && |waits| <= budget
    requires forall i :: 0 <= i < |waits| ==> waits[i] == Wait(min, max, i + 1)
    ensures Sum(waits) <= budget * max
  {
    forall i | 0 <= i < |waits|
      ensures waits[i] <= max
    {
      WaitIsCappedDoubling(min, max, i + 1);
    }
    SumBound(waits, max);
    MulGrows(max, |waits|, budget);
  }

  /** The requirement fixes the outcome: there is only one way to be correct. */
  lemma CorrectIsUnique(f: Fold, l: Limits, w: World, n: nat, v: Verdict, n': nat, v': Verdict)
    requires Correct(f, l, w, n, v) && Correct(f, l, w, n', v')
    ensures n == n' && v == v'
  {
    assert n < n' ==> Retryable(f, w.result(n)) && w.slept(n);
    assert n' < n ==> Retryable(f, w.result(n')) && w.slept(n');
  }

  /** A correct request succeeds exactly when some attempt within the limit
      succeeds and can be reached through retryable failures. */
  lemma SucceedsIffReachable(f: Fold, l: Limits, w: World, n: nat, v: Verdict)
    requires Correct(f, l, w, n, v)
    ensures v.Success? <==> exists k :: 1 <= k <= l.maxAttempts && w.result(k).Data? && Reaches(f, w, k)
  {
    if k :| 1 <= k <= l.maxAttempts && w.result(k).Data? && Reaches(f, w, k) {
      CorrectIsUnique(f, l, w, n, v, k, Success(w.result(k).data));
    }
  }

  /** A text with a phrase somewhere in it. */
  ghost predicate Mentions(text: string, phrase: string) {
    exists i :: 0 <= i && i + |phrase| <= |text| && text[i..][..|phrase|] == phrase
  }

  /** A failure that another attempt may mend, by status and body: no status at all, 429, a
      server error, or a 400 whose body speaks of a limit. */
  ghost predicate Transient(f: Fold, a: Attempt) {
    || a.OtherError?
    || (a.HttpError? && (a.status == 429 || a.status >= 500))
    || (a.HttpError? && a.status == 400
        && (|| Mentions(ToLower(f, a.body), "rate limit") || Mentions(ToLower(f, a.body), "rate-limit")
            || Mentions(ToLower(f, a.body), "over limit")))
  }

  /** In a finished request, a wait followed the k-th attempt if and only if that was not
      the last allowed and failed in such a way. */
  lemma WaitsIffTransient(f: Fold, l: Limits, w: World, n: nat, v: Verdict, k: nat)
    requires Correct(f, l, w, n, v) && 1 <= k <= n
    ensures k < (if v.SleepFailed? then n + 1 else n) <==> k < l.maxAttempts && Transient(f, w.result(k))
  {
    RetryableIff(f, w.result(k));
  }

  lemma ContainsIsMentions(text: string, phrase: string)
    ensures Contains(text, phrase) <==> Mentions(text, phrase)
  {
    if i :| 0 <= i <= |text| && StartsWith(text[i..], phrase) {
      assert text[i..][..|phrase|] == phrase;
    }
    if i :| 0 <= i && i + |phrase| <= |text| && text[i..][..|phrase|] == phrase {
      assert StartsWith(text[i..], phrase);
    }
  }

  lemma RetryableIff(f: Fold, a: Attempt)
    ensures Retryable(f, a) <==> Transient(f, a)
  {
    if a.HttpError? {
      ContainsIsMentions(ToLower(f, a.body), "rate limit");
      ContainsIsMentions(ToLower(f, a.body), "rate-limit");
      ContainsIsMentions(ToLower(f, a.body), "over limit");
    }
  }
}

/** The Lens access token: cached until a minute before it expires, minted anew
    otherwise.  Times are nanoseconds; calls come one at a time under a mutex. */
module TokenCache {
  import opened Basics

  const SECOND := 1_000_000_000
  const MINUTE := 60 * SECOND
  const RANGE := 0x1_0000_0000_0000_0000

  /** A product as a 64-bit duration holds it. */
  function Wrap(x: int): (r: int)
    ensures -RANGE / 2 <= r < RANGE / 2
    ensures -RANGE / 2 <= x < RANGE / 2 ==> r == x
  {
    var m := x % RANGE;
    if m < RANGE / 2 then m else m - RANGE
  }

  /** How long a token lasts: seconds turned into a wrapping 64-bit duration. */
  function Lifetime(expiresIn: int): int {
    Wrap(expiresIn * SECOND)
  }

  /** The endpoint's reply: an error, or a decoded body. */
  datatype Reply = Fails | Body(token: string, expiresIn: int)

  /** One call: the clock when it starts and after the reply, the reply it would
      get, and whether the two metrics that follow a mint are accepted. */
  datatype Call = Call(before: int, after: int, reply: Reply, metricsOk: bool)

  datatype Cache = Cache(token: string, expiresAt: int)

  predicate Hit(c: Cache, call: Call) {
    c.token != "" && call.before + MINUTE < c.expiresAt
  }

  /** A reply that holds a token with a lifetime. */
  predicate Grants(reply: Reply) {
    reply.Body? && reply.token != "" && reply.expiresIn > 0
  }

  predicate Mints(c: Cache, call: Call) {
    !Hit(c, call) && Grants(call.reply)
  }

  function Next(c: Cache, call: Call): Cache {
    if Mints(c, call) then Cache(call.reply.token, call.after + Lifetime(call.reply.expiresIn)) else c
  }

  datatype Result = Token(token: string) | Error

  class Client {
    var token: string
    var expiresAt: int

    constructor ()
      ensures token == "" && expiresAt == 0
    {
      token, expiresAt := "", 0;
    }

    /** A hit returns the cached token, which has more than a minute left.  A mint
        replaces the cache, also when a metric is rejected after it; any other
        failure leaves the cache as it was. */
    method AccessToken(call: Call) returns (r: Result)
      modifies this
      ensures Cache(token, expiresAt) == Next(old(Cache(token, expiresAt)), call)
      ensures r == Answer(old(Cache(token, expiresAt)), call)
      ensures Hit(old(Cache(token, expiresAt)), call) ==>
        r == Token(old(token)) && old(expiresAt) - call.before > MINUTE
      ensures r.Token? ==> r.token == token && token != ""
      ensures !Hit(old(Cache(token, expiresAt)), call)
              && call.reply.Body? && call.reply.token != "" && call.reply.expiresIn > 0 ==>
        && token == call.reply.token && expiresAt == call.after + Lifetime(call.reply.expiresIn)
        && r == if call.metricsOk then Token(call.reply.token) else Error
      ensures !Hit(old(Cache(token, expiresAt)), call)
              && (call.reply.Fails? || call.reply.token == "" || call.reply.expiresIn <= 0) ==>
        token == old(token) && expiresAt == old(expiresAt) && r == Error
      ensures r.Token? <==>
        || Hit(old(Cache(token, expiresAt)), call)
        || (Mints(old(Cache(token, expiresAt)), call) && call.metricsOk)
    {
      if token != "" && call.before + MINUTE < expiresAt {
        return Token(token);
      }
      if call.reply.Fails? || call.reply.token == "" || call.reply.expiresIn <= 0 {
        return Error;
      }
      token, expiresAt := call.reply.token, call.after + Wrap(call.reply.expiresIn * SECOND);
      if !call.metricsOk {
        return Error;
      }
      r := Token(token);
    }
  }

  // ----------------------------------------------------------- whole histories

  function CacheAfter(c: Cache, calls: seq<Call>): Cache {
    if calls == [] then c else Next(CacheAfter(c, calls[..|calls| - 1]), calls[|calls| - 1])
  }

  /** The times at which tokens were minted. */
  function MintTimes(c: Cache, calls: seq<Call>): seq<int> {
    if calls == [] then []
    else
      var n := |calls| - 1;
      var before := MintTimes(c, calls[..n]);
      if Mints(CacheAfter(c, calls[..n]), calls[n]) then before + [calls[n].after] else before
  }

  /** What each call returns: the cached token on a hit, the new one on a mint whose
      metrics are accepted, and otherwise an error. */
  function Answer(c: Cache, call: Call): Result {
    if Hit(c, call) then Token(c.token)
    else if Grants(call.reply) && call.metricsOk then Token(call.reply.token)
    else Error
  }

  /** The token in the reply of the latest call that minted. */
  function LatestGrant(c: Cache, calls: seq<Call>): Option<string> {
    if calls == [] then None
    else
      var n := |calls| - 1;
      if Mints(CacheAfter(c, calls[..n]), calls[n]) then Some(calls[n].reply.token) else LatestGrant(c, calls[..n])
  }

  /** Starting without a token, the cache always holds that of the latest mint, and a
      token that is returned is the one in the reply of the latest minting call, this
      one included. */
  lemma {:induction false} HandsOutLatest(c: Cache, calls: seq<Call>, call: Call)
    requires c.token == ""
    ensures
      var before, latest := CacheAfter(c, calls), LatestGrant(c, calls);
      && before.token == (if latest.None? then "" else latest.value)
      && (Answer(before, call).Token? ==> LatestGrant(c, calls + [call]) == Some(Answer(before, call).token))
  {
    if calls != [] {
      var n := |calls| - 1;
      HandsOutLatest(c, calls[..n], calls[n]);
    }
    assert (calls + [call])[..|calls|] == calls;
  }

  /** The clock never runs backwards, within a call or from call to call. */
  ghost predicate ClockRuns(calls: seq<Call>) {
    && (forall i :: 0 <= i < |calls| ==> calls[i].before <= calls[i].after)
    && (forall i, j :: 0 <= i < j < |calls| ==> calls[i].after <= calls[j].before)
  }

  ghost predicate LastAtLeast(calls: seq<Call>, e: int) {
    forall i :: 0 <= i < |calls| && calls[i].reply.Body? && calls[i].reply.expiresIn > 0
        ==> Lifetime(calls[i].reply.expiresIn) >= e
  }

  ghost predicate Spaced(times: seq<int>, gap: int) {
    forall i :: 0 < i < |times| ==> times[i] - times[i - 1] >= gap
  }

  /** After the last mint the cache holds that token, for at least its lifetime. */
  lemma {:induction false} MintsAreSpaced(c: Cache, calls: seq<Call>, e: int)
    requires ClockRuns(calls) && LastAtLeast(calls, e)
    ensures Spaced(MintTimes(c, calls), e - MINUTE)
    ensures
      var times := MintTimes(c, calls);
      times != [] ==>
        && CacheAfter(c, calls).token != ""
        && CacheAfter(c, calls).expiresAt >= times[|times| - 1] + e
        && times[|times| - 1] <= calls[|calls| - 1].after
  {
    if calls != [] {
      var n := |calls| - 1;
      MintsAreSpaced(c, calls[..n], e);
      var cache := CacheAfter(c, calls[..n]);
      if Mints(cache, calls[n]) && MintTimes(c, calls[..n]) != [] {
        assert cache.expiresAt <= calls[n].before + MINUTE;
      }
    }
  }

  lemma {:induction false} SpacedSpan(times: seq<int>, gap: int, i: nat, j: nat)
    requires Spaced(times, gap) && i <= j < |times|
    ensures times[j] - times[i] >= (j - i) * gap
  {
    if i < j {
      SpacedSpan(times, gap, i, j - 1);
      assert (j - i) * gap == (j - 1 - i) * gap + gap;
    }
  }

  /** If every token lasts at least e, more than a minute, then mints i to j that
      fall within a window number at most one more than the window holds gaps. */
  lemma MintsPerWindow(c: Cache, calls: seq<Call>, e: int, window: int, i: nat, j: nat)
    requires ClockRuns(calls) && LastAtLeast(calls, e) && e > MINUTE
    requires i <= j < |MintTimes(c, calls)|
    requires MintTimes(c, calls)[j] - MintTimes(c, calls)[i] <= window
    ensures window >= 0
    ensures j - i + 1 <= 1 + window / (e - MINUTE)
  {
    MintsAreSpaced(c, calls, e);
    var gap := e - MINUTE;
    SpacedSpan(MintTimes(c, calls), gap, i, j);
    AtMostQuotient(j - i, gap, window);
  }

  lemma AtMostQuotient(k: nat, gap: int, window: int)
    requires gap > 0 && k * gap <= window
    ensures window >= 0 && k <= window / gap
  {
    var q := window / gap;
    MulGrows(gap, 0, k);
    MulGrows(gap, q + 1, k);
    assert gap * (q + 1) == gap * q + gap;
  }

  // ---------------------------------------------------------- lifetimes that wrap

  /** The longest lifetime, in seconds, that a 64-bit duration can hold. */
  const LONGEST := 9223372036

  lemma LifetimeExactIff(expiresIn: int)
    requires 0 < expiresIn < RANGE / 2
    ensures Lifetime(expiresIn) == expiresIn * SECOND <==> expiresIn <= LONGEST
    ensures Lifetime(expiresIn) <= expiresIn * SECOND
  {
  }

  /** A call at some time that finds no endpoint: it succeeds only on a hit. */
  function Ask(now: int): Call {
    Call(now, now, Fails, true)
  }

  /** From the moment it is minted until a minute before the promised end, every call
      finds the token in the cache. */
  ghost predicate Honoured(c: Cache, now: int, expiresIn: int) {
    forall t :: now <= t && t + MINUTE < now + expiresIn * SECOND ==> Hit(c, Ask(t))
  }

  /** A minted token is used for as long as the reply promised if and only if the
      promise is at most 9223372036 seconds; a longer one wraps. */
  lemma HonouredIff(c: Cache, call: Call)
    requires Mints(c, call) && call.reply.expiresIn < RANGE / 2
    ensures Honoured(Next(c, call), call.after, call.reply.expiresIn) <==> call.reply.expiresIn <= LONGEST
  {
    var e := call.reply.expiresIn;
    var next := Next(c, call);
    LifetimeExactIff(e);
    if LONGEST < e {
      var t := if MINUTE < Lifetime(e) then call.after + Lifetime(e) - MINUTE else call.after;
      assert !Hit(next, Ask(t));
    }
  }

  /** A call made when the token has just been minted mints again if and only if what
      is left of the lifetime after wrapping is at most a minute; within the range of
      a duration, if and only if the reply promised at most a minute. */
  lemma MintsAgainIff(c: Cache, call: Call, again: Call)
    requires Mints(c, call) && call.reply.expiresIn < RANGE / 2
    requires again.before == call.after && again.reply == call.reply
    ensures
      var e := call.reply.expiresIn;
      var left := e * SECOND % RANGE;
      && (Mints(Next(c, call), again) <==> left <= MINUTE || RANGE / 2 <= left)
      && (e <= LONGEST ==> (Mints(Next(c, call), again) <==> e <= 60))
  {
  }

  /** Just beyond the range a token is past its time when stored; further on, one that
      was promised for centuries is kept for less than two minutes. */
  lemma HugeLifetimesWrap()
    ensures Lifetime(9223372037) < 0
    ensures Lifetime(18446744173) == 99_290_448_384
  {
  }

  // -------------------------------------------------------- spacing by the promises

  /** Every token is promised for at least so many seconds, and none for too many. */
  ghost predicate Promised(calls: seq<Call>, seconds: int) {
    forall i :: 0 <= i < |calls| && calls[i].reply.Body? && calls[i].reply.expiresIn > 0
      ==> seconds <= calls[i].reply.expiresIn <= LONGEST
  }

  /** If every reply promises at least so many seconds, more than 60, then mints are
      that less a minute apart, and mints i to j within a window are at most one more
      than the window holds such gaps. */
  lemma PromisesSpaceMints(c: Cache, calls: seq<Call>, seconds: int, window: int, i: nat, j: nat)
    requires ClockRuns(calls) && Promised(calls, seconds) && seconds > 60
    requires i <= j < |MintTimes(c, calls)|
    requires MintTimes(c, calls)[j] - MintTimes(c, calls)[i] <= window
    ensures Spaced(MintTimes(c, calls), (seconds - 60) * SECOND)
    ensures window >= 0 && j - i + 1 <= 1 + window / ((seconds - 60) * SECOND)
  {
    var e := seconds * SECOND;
    forall m | 0 <= m < |calls| && calls[m].reply.Body? && calls[m].reply.expiresIn > 0
      ensures Lifetime(calls[m].reply.expiresIn) >= e
    {
      LifetimeExactIff(calls[m].reply.expiresIn);
    }
    MintsAreSpaced(c, calls, e);
    MintsPerWindow(c, calls, e, window, i, j);
  }
}

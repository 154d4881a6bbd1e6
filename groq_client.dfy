/**
 * groq_client.py: the lazily built API client and `chat_with_retry`, which calls the
 * completion endpoint up to five times, sleeping 2, 4, 8 and 16 seconds between attempts that
 * fail with a transient error.  The endpoint is an oracle: `outcomes(k)` is what the k-th
 * attempt of one call returns or raises; `time.sleep` is recorded as a list of delays.
 */
module GroqClient {
  import opened Wrappers

  const MaxRetries: nat := 5
  /** Seconds slept after the first failed attempt. */
  const BaseDelay: real := 2.0

  /** The exception classes the endpoint can raise; the first four are `_RETRYABLE`. */
  datatype ErrorKind =
    | RateLimit
    | ApiConnection
    | ApiTimeout
    | InternalServer
    | OtherError(name: string)

  predicate Retryable(k: ErrorKind)
  {
    k.RateLimit? || k.ApiConnection? || k.ApiTimeout? || k.InternalServer?
  }

  /** An exception that leaves `chat_with_retry`. */
  datatype Error =
    | ApiError(kind: ErrorKind)
    /** `get_client`'s RuntimeError when GROQ_API_KEY is unset or empty. */
    | MissingApiKey

  /** One call of `client.chat.completions.create`: the message content, or an exception. */
  datatype CreateOutcome = Returned(content: string) | Raised(kind: ErrorKind)

  /** The outcome of one `chat_with_retry`: what it returns or raises, the endpoint calls made, the sleeps. */
  datatype Attempts = Attempts(result: Result<string, Error>, calls: nat, sleeps: seq<real>)

  function Pow2(n: nat): (r: nat)
    ensures r >= 1
  {
    if n == 0 then 1 else 2 * Pow2(n - 1)
  }

  /** `delay * (2 ** (attempt - 1))`. */
  function Wait(attempt: nat): real
    requires attempt >= 1
  {
    BaseDelay * Pow2(attempt - 1) as real
  }

  /** The sleeps after the first `n` failed attempts. */
  function Delays(n: nat): (r: seq<real>)
    ensures |r| == n
  {
    seq(n, i requires 0 <= i < n => Wait(i + 1))
  }

  function Sum(s: seq<real>): real
  {
    if |s| == 0 then 0.0 else s[0] + Sum(s[1..])
  }

  /** The delay schedule: 2, 4, 8 and 16 seconds, 30 seconds in all before the last attempt. */
  lemma DelaySchedule()
    ensures Delays(MaxRetries - 1) == [2.0, 4.0, 8.0, 16.0]
    ensures Sum(Delays(MaxRetries - 1)) == 30.0
  {
    assert Pow2(0) == 1 && Pow2(1) == 2 && Pow2(2) == 4 && Pow2(3) == 8;
    var d := Delays(MaxRetries - 1);
    assert d == [2.0, 4.0, 8.0, 16.0];
    assert d[1..] == [4.0, 8.0, 16.0] && d[1..][1..] == [8.0, 16.0] && d[1..][1..][1..] == [16.0];
    assert [16.0][1..] == [];
    assert Sum([16.0]) == 16.0;
    assert Sum([8.0, 16.0]) == 24.0;
    assert Sum([4.0, 8.0, 16.0]) == 28.0;
  }

  function KeyPresent(apiKey: Option<string>): bool
  {
    apiKey.Some? && apiKey.value != ""
  }

  /** The attempts from number `attempt` on. */
  function RetryFrom(outcomes: nat -> CreateOutcome, attempt: nat): (a: Attempts)
    requires 1 <= attempt <= MaxRetries
    decreases MaxRetries - attempt
  {
    match outcomes(attempt)
    case Returned(c) => Attempts(Ok(c), 1, [])
    case Raised(k) =>
      if !Retryable(k) || attempt == MaxRetries then Attempts(Err(ApiError(k)), 1, [])
      else
        var rest := RetryFrom(outcomes, attempt + 1);
        Attempts(rest.result, rest.calls + 1, [Wait(attempt)] + rest.sleeps)
  }

  /**
   * `chat_with_retry`, given whether the client was already built and the environment's key:
   * without a client and without a key it raises before any endpoint call.
   */
  function RetrySpec(hasClient: bool, apiKey: Option<string>, outcomes: nat -> CreateOutcome): Attempts
  {
    if !hasClient && !KeyPresent(apiKey) then Attempts(Err(MissingApiKey), 0, [])
    else RetryFrom(outcomes, 1)
  }

  /** The outcome of the remaining attempts, after `calls` failed ones that slept `sleeps`. */
  function After(calls: nat, sleeps: seq<real>, rest: Attempts): Attempts
  {
    Attempts(rest.result, calls + rest.calls, sleeps + rest.sleeps)
  }

  /** Nothing before the first attempt. */
  lemma AfterNothing(rest: Attempts)
    ensures After(0, [], rest) == rest
  {
    assert [] + rest.sleeps == rest.sleeps;
  }

  /** An attempt that ends the loop adds its call and no sleep. */
  lemma AfterLast(calls: nat, sleeps: seq<real>, result: Result<string, Error>)
    ensures After(calls, sleeps, Attempts(result, 1, [])) == Attempts(result, calls + 1, sleeps)
  {
    assert sleeps + [] == sleeps;
  }

  /** One failed, retried attempt: its sleep joins the ones before it. */
  lemma RetryStep(outcomes: nat -> CreateOutcome, attempt: nat, calls: nat, sleeps: seq<real>)
    requires 1 <= attempt < MaxRetries
    requires outcomes(attempt).Raised? && Retryable(outcomes(attempt).kind)
    ensures After(calls, sleeps, RetryFrom(outcomes, attempt)) ==
      After(calls + 1, sleeps + [Wait(attempt)], RetryFrom(outcomes, attempt + 1))
  {
    var rest := RetryFrom(outcomes, attempt + 1);
    assert sleeps + ([Wait(attempt)] + rest.sleeps) == (sleeps + [Wait(attempt)]) + rest.sleeps;
  }

  /** Attempts 1 to `n` all raised a retryable error. */
  ghost predicate TransientUpTo(outcomes: nat -> CreateOutcome, n: nat)
  {
    forall k :: 1 <= k <= n ==> outcomes(k).Raised? && Retryable(outcomes(k).kind)
  }

  /**
   * From attempt `attempt` on, the calls made and the sleeps follow the schedule: the sleeps are
   * those after attempts `attempt` .. `attempt + calls - 2`, at most five calls are made in all,
   * an error is the one the last call raised, and only a non-retryable error or the fifth
   * attempt ends the loop with an error.
   */
  lemma {:induction false} RetryFromShape(outcomes: nat -> CreateOutcome, attempt: nat)
    requires 1 <= attempt <= MaxRetries
    decreases MaxRetries - attempt
    ensures var a := RetryFrom(outcomes, attempt);
      var last := attempt + a.calls - 1;
      && 1 <= a.calls <= MaxRetries - attempt + 1
      && |a.sleeps| == a.calls - 1
      && (forall i :: 0 <= i < |a.sleeps| ==> a.sleeps[i] == Wait(attempt + i))
      && (forall k :: attempt <= k < last ==> outcomes(k).Raised? && Retryable(outcomes(k).kind))
      && (a.result.Ok? ==> outcomes(last) == Returned(a.result.value))
      && (a.result.Err? ==>
            outcomes(last).Raised? && a.result.error == ApiError(outcomes(last).kind) &&
            (!Retryable(outcomes(last).kind) || last == MaxRetries))
  {
    var a := RetryFrom(outcomes, attempt);
    match outcomes(attempt)
    case Returned(c) =>
      assert a == Attempts(Ok(c), 1, []);
    case Raised(k) =>
      if Retryable(k) && attempt < MaxRetries {
        var rest := RetryFrom(outcomes, attempt + 1);
        assert a == Attempts(rest.result, rest.calls + 1, [Wait(attempt)] + rest.sleeps);
        RetryFromShape(outcomes, attempt + 1);
        forall i | 0 <= i < |a.sleeps| ensures a.sleeps[i] == Wait(attempt + i) {
          if i > 0 {
            assert a.sleeps[i] == rest.sleeps[i - 1];
          }
        }
      } else {
        assert a == Attempts(Err(ApiError(k)), 1, []);
      }
  }

  /** At most five endpoint calls, and one sleep fewer than calls, following 2, 4, 8, 16. */
  lemma CallsBounded(hasClient: bool, apiKey: Option<string>, outcomes: nat -> CreateOutcome)
    ensures var a := RetrySpec(hasClient, apiKey, outcomes);
      && a.calls <= MaxRetries
      && a.sleeps == Delays(if a.calls == 0 then 0 else a.calls - 1)
      && Sum(a.sleeps) <= 30.0
  {
    var a := RetrySpec(hasClient, apiKey, outcomes);
    if hasClient || KeyPresent(apiKey) {
      RetryFromShape(outcomes, 1);
      SumDelaysGrows(a.calls - 1, MaxRetries - 1);
    }
    DelaySchedule();
  }

  lemma {:induction false} SumDelaysGrows(m: nat, n: nat)
    requires m <= n
    ensures Sum(Delays(m)) <= Sum(Delays(n))
  {
    if m < n {
      SumDelaysGrows(m, n - 1);
      SumSnoc(Delays(n - 1), Wait(n));
      assert Delays(n) == Delays(n - 1) + [Wait(n)];
    }
  }

  lemma {:induction false} SumSnoc(s: seq<real>, x: real)
    ensures Sum(s + [x]) == Sum(s) + x
  {
    if |s| > 0 {
      assert (s + [x])[1..] == s[1..] + [x];
      SumSnoc(s[1..], x);
    } else {
      assert s + [x] == [x];
    }
  }

  /** The sleeps after attempts `first` .. `last - 1`. */
  function Schedule(first: nat, last: nat): (r: seq<real>)
    requires 1 <= first <= last
    ensures |r| == last - first
  {
    seq(last - first, i requires 0 <= i < last - first => Wait(first + i))
  }

  /** The schedule from `first` is the sleep after `first`, then the schedule from `first + 1`. */
  lemma ScheduleCons(first: nat, last: nat)
    requires 1 <= first < last
    ensures [Wait(first)] + Schedule(first + 1, last) == Schedule(first, last)
  {
    var s := Schedule(first + 1, last);
    forall i | 0 <= i < last - first ensures ([Wait(first)] + s)[i] == Schedule(first, last)[i] {
      if i > 0 {
        assert ([Wait(first)] + s)[i] == s[i - 1];
      }
    }
  }

  /** Failed attempts accumulate. */
  lemma AfterAfter(c1: nat, s1: seq<real>, c2: nat, s2: seq<real>, rest: Attempts)
    ensures After(c1, s1, After(c2, s2, rest)) == After(c1 + c2, s1 + s2, rest)
  {
    assert s1 + (s2 + rest.sleeps) == (s1 + s2) + rest.sleeps;
  }

  /** Transient failures from `attempt` up to `last` just add their calls and sleeps. */
  lemma {:induction false} RunsTo(outcomes: nat -> CreateOutcome, attempt: nat, last: nat)
    requires 1 <= attempt <= last <= MaxRetries
    requires forall k :: attempt <= k < last ==> outcomes(k).Raised? && Retryable(outcomes(k).kind)
    ensures RetryFrom(outcomes, attempt) == After(last - attempt, Schedule(attempt, last), RetryFrom(outcomes, last))
    decreases last - attempt
  {
    if attempt < last {
      RetryStep(outcomes, attempt, 0, []);
      AfterNothing(RetryFrom(outcomes, attempt));
      RunsTo(outcomes, attempt + 1, last);
      AfterAfter(1, [Wait(attempt)], last - attempt - 1, Schedule(attempt + 1, last), RetryFrom(outcomes, last));
      ScheduleCons(attempt, last);
    } else {
      AfterNothing(RetryFrom(outcomes, last));
    }
  }

  /**
   * After `n` transient failures (n < 5) the next attempt's completion is returned at once:
   * n + 1 calls, the first n sleeps of the schedule, nothing after the success.
   */
  lemma SucceedsAfterTransientFailures(outcomes: nat -> CreateOutcome, n: nat, content: string)
    requires n < MaxRetries
    requires TransientUpTo(outcomes, n)
    requires outcomes(n + 1) == Returned(content)
    ensures RetryFrom(outcomes, 1) == Attempts(Ok(content), n + 1, Delays(n))
  {
    RunsTo(outcomes, 1, n + 1);
    assert Schedule(1, n + 1) == Delays(n);
  }

  /** Five transient failures: the fifth error is re-raised, after sleeping 2, 4, 8 and 16 seconds. */
  lemma GivesUpAfterFive(outcomes: nat -> CreateOutcome)
    requires TransientUpTo(outcomes, MaxRetries)
    ensures RetryFrom(outcomes, 1) ==
      Attempts(Err(ApiError(outcomes(MaxRetries).kind)), MaxRetries, [2.0, 4.0, 8.0, 16.0])
  {
    RunsTo(outcomes, 1, MaxRetries);
    assert Schedule(1, MaxRetries) == Delays(MaxRetries - 1);
    DelaySchedule();
  }

  /** A non-retryable error propagates from the attempt that raised it, with no further sleep. */
  lemma OtherErrorsPropagate(outcomes: nat -> CreateOutcome, n: nat, k: ErrorKind)
    requires n < MaxRetries
    requires TransientUpTo(outcomes, n)
    requires outcomes(n + 1) == Raised(k) && !Retryable(k)
    ensures RetryFrom(outcomes, 1) == Attempts(Err(ApiError(k)), n + 1, Delays(n))
  {
    RunsTo(outcomes, 1, n + 1);
    assert Schedule(1, n + 1) == Delays(n);
  }

  /** The client object `Groq(api_key=...)`. */
  class Client {
    const apiKey: string

    constructor (apiKey: string)
      ensures this.apiKey == apiKey
    {
      this.apiKey := apiKey;
    }
  }

  /** The module's global state: the `_client` singleton and how many clients were ever built. */
  class Groq {
    var client: Client?
    var built: nat

    ghost predicate Valid()
      reads this
    {
      built == if client == null then 0 else 1
    }

    constructor ()
      ensures Valid() && client == null
    {
      client, built := null, 0;
    }

    /**
     * `get_client`: the cached client if there is one; otherwise a new client from the key, or
     * the configuration error when the key is absent or empty.  At most one client is ever built.
     */
    method GetClient(apiKey: Option<string>) returns (r: Result<Client, Error>)
      requires Valid()
      modifies this
      ensures Valid()
      ensures old(client) != null ==> r == Ok(old(client)) && client == old(client)
      ensures old(client) == null && !KeyPresent(apiKey) ==> r == Err(MissingApiKey) && client == null
      ensures old(client) == null && KeyPresent(apiKey) ==>
        r.Ok? && r.value == client && fresh(client) && client.apiKey == apiKey.value
    {
      if client == null {
        if !KeyPresent(apiKey) {
          return Err(MissingApiKey);
        }
        client := new Client(apiKey.value);
        built := built + 1;
      }
      r := Ok(client);
    }

    /** `chat_with_retry`: the attempt loop, proved to follow `RetrySpec`. */
    method ChatWithRetry(apiKey: Option<string>, outcomes: nat -> CreateOutcome)
      returns (r: Result<string, Error>, calls: nat, sleeps: seq<real>)
      requires Valid()
      modifies this
      ensures Valid()
      ensures Attempts(r, calls, sleeps) == RetrySpec(old(client) != null, apiKey, outcomes)
      ensures old(client) != null ==> client == old(client)
      ensures client != null <==> old(client) != null || KeyPresent(apiKey)
    {
      var delay := BaseDelay;
      var attempt: nat := 1;
      calls, sleeps := 0, [];
      ghost var spec := RetrySpec(old(client) != null, apiKey, outcomes);
      while true
        invariant Valid()
        invariant 1 <= attempt <= MaxRetries && calls == attempt - 1
        invariant attempt == 1 ==> client == old(client) && sleeps == []
        invariant attempt > 1 ==> client != null
        invariant old(client) != null ==> client == old(client)
        invariant client != null ==> old(client) != null || KeyPresent(apiKey)
        invariant attempt > 1 ==> spec == After(calls, sleeps, RetryFrom(outcomes, attempt))
        decreases MaxRetries - attempt
      {
        var c := GetClient(apiKey);
        if c.Err? {
          return Err(MissingApiKey), 0, [];
        }
        if attempt == 1 {
          AfterNothing(RetryFrom(outcomes, 1));
        }
        ghost var here := RetryFrom(outcomes, attempt);
        assert spec == After(calls, sleeps, here);
        match outcomes(attempt)
        case Returned(content) =>
          assert here == Attempts(Ok(content), 1, []);
          AfterLast(calls, sleeps, Ok(content));
          return Ok(content), calls + 1, sleeps;
        case Raised(k) =>
          if !Retryable(k) || attempt == MaxRetries {
            assert here == Attempts(Err(ApiError(k)), 1, []);
            AfterLast(calls, sleeps, Err(ApiError(k)));
            return Err(ApiError(k)), calls + 1, sleeps;
          }
          var wait := delay * Pow2(attempt - 1) as real;
          assert wait == Wait(attempt);
          RetryStep(outcomes, attempt, calls, sleeps);
          calls, sleeps := calls + 1, sleeps + [wait];
          attempt := attempt + 1;
      }
    }
  }
}

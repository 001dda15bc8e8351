/** The retrying invoker of src/gemini_client.py.

    The remote call is not modelled: each call of `solve_question` is given
    a `Script`, the outcomes the remote would produce for the successive
    attempts (an answer with its text, a timeout, or a raised error), each
    with the seconds it took. The model's outputs are the result record,
    the number of attempts consumed, the list of back-off sleeps and the
    client's updated counters. Clock readings are replaced by the sums of
    the attempt and sleep durations, so `time_taken` is "now - start_time". */
module Gemini {
  import opened Common
  import Config

  /** A non-negative number of seconds. */
  type Duration = r: real | r >= 0.0

  /** What one attempt of the remote call produced. */
  datatype Attempt =
    | Answer(text: string, took: Duration)     // `response.text`
    | Timeout(took: Duration)                  // `asyncio.TimeoutError`
    | Raised(message: string, took: Duration)  // any other exception, `str(e)`

  /** The remote's outcomes for the MAX_RETRIES attempts of one call; those
      after the first answer are never consumed. */
  type Script = s: seq<Attempt> | |s| == Config.MaxRetries
    witness [Timeout(0.0), Timeout(0.0), Timeout(0.0)]

  /** The dict `solve_question` returns. */
  datatype SolveResult = SolveResult(
    filename: string,
    success: bool,
    solution: Option<string>,
    error: Option<string>,
    timeTaken: real)

  /** A success carries a solution and no error; a failure the reverse. */
  predicate WellFormed(r: SolveResult) {
    (r.success ==> r.solution.Some? && r.error.None?)
    && (!r.success ==> r.solution.None? && r.error.Some?)
  }

  /** `f"Failed after {MAX_RETRIES} attempts"`. */
  function FailedMessage(): (m: string)
    ensures m == "Failed after 3 attempts"
  {
    assert NatToString(Config.MaxRetries) == "3";
    "Failed after " + NatToString(Config.MaxRetries) + " attempts"
  }

  /** The first answered attempt among the first `n`, if there is one. */
  function FirstAnswer(script: seq<Attempt>, n: nat): (k: Option<nat>)
    requires n <= |script|
    ensures k.Some? ==> k.value < n && script[k.value].Answer?
                        && forall j :: 0 <= j < k.value ==> !script[j].Answer?
    ensures k.None? <==> forall j :: 0 <= j < n ==> !script[j].Answer?
  {
    if n == 0 then None
    else match FirstAnswer(script, n - 1)
      case Some(k) => Some(k)
      case None => if script[n - 1].Answer? then Some(n - 1) else None
  }

  /** The sleep after attempt `j` (0-based): only a raised error sleeps,
      for RETRY_DELAY * (j + 1) seconds, and never after the last attempt. */
  function BackoffAfter(script: seq<Attempt>, j: nat): seq<nat>
    requires j < |script|
  {
    if script[j].Raised? && j < Config.MaxRetries - 1 then [Config.RetryDelay * (j + 1)] else []
  }

  /** The sleeps taken during the first `n` attempts. */
  function Sleeps(script: seq<Attempt>, n: nat): seq<nat>
    requires n <= |script|
  {
    if n == 0 then [] else Sleeps(script, n - 1) + BackoffAfter(script, n - 1)
  }

  function Sum(s: seq<nat>): nat {
    if s == [] then 0 else Sum(s[..|s| - 1]) + s[|s| - 1]
  }

  lemma SumSnoc(s: seq<nat>, d: nat)
    ensures Sum(s + [d]) == Sum(s) + d
  {
    assert (s + [d])[..|s|] == s;
  }

  /** Seconds spent inside the first `n` attempts. */
  function Took(script: seq<Attempt>, n: nat): real
    requires n <= |script|
  {
    if n == 0 then 0.0 else Took(script, n - 1) + script[n - 1].took
  }

  /** `time.time() - start_time` after the first `n` attempts and their sleeps. */
  function Elapsed(script: seq<Attempt>, n: nat): real
    requires n <= |script|
  {
    Took(script, n) + Sum(Sleeps(script, n)) as real
  }

  /** One more attempt adds its duration and its back-off, if any. */
  lemma ElapsedStep(script: seq<Attempt>, n: nat)
    requires n < |script|
    ensures Sleeps(script, n + 1) == Sleeps(script, n) + BackoffAfter(script, n)
    ensures Elapsed(script, n + 1)
            == Elapsed(script, n) + script[n].took + Sum(BackoffAfter(script, n)) as real
    ensures script[n].Raised? && n < Config.MaxRetries - 1 ==>
              Sleeps(script, n + 1) == Sleeps(script, n) + [Config.RetryDelay * (n + 1)]
              && Elapsed(script, n + 1) == Elapsed(script, n) + script[n].took + (Config.RetryDelay * (n + 1)) as real
    ensures !(script[n].Raised? && n < Config.MaxRetries - 1) ==>
              Sleeps(script, n + 1) == Sleeps(script, n)
              && Elapsed(script, n + 1) == Elapsed(script, n) + script[n].took
    ensures !script[n].Answer? && FirstAnswer(script, n).None? ==> FirstAnswer(script, n + 1).None?
  {
    var b := BackoffAfter(script, n);
    if b == [] {
      assert Sleeps(script, n) + b == Sleeps(script, n);
    } else {
      SumSnoc(Sleeps(script, n), b[0]);
      assert Sum(b) == b[0] by { assert b[..0] == []; }
    }
  }

  /** Once the first `k` attempts got no answer, an answer at `k` is the first. */
  lemma FirstAnswerAt(script: seq<Attempt>, k: nat, n: nat)
    requires k < n <= |script|
    requires FirstAnswer(script, k).None? && script[k].Answer?
    ensures FirstAnswer(script, n) == Some(k)
  {
    assert forall j :: 0 <= j < k ==> !script[j].Answer?;
  }

  /** The outputs of one call: the result, how many attempts ran, the sleeps. */
  datatype Call = Call(result: SolveResult, attempts: nat, sleeps: seq<nat>)

  /** What one `solve_question` call produces against the remote's answers. */
  function Solve(filename: string, script: Script): (c: Call)
    ensures 1 <= c.attempts <= Config.MaxRetries
    ensures forall j :: 0 <= j < c.attempts - 1 ==> !script[j].Answer?
    ensures c.result.success <==> script[c.attempts - 1].Answer?
    ensures c.result.success <==> exists j :: 0 <= j < Config.MaxRetries && script[j].Answer?
    ensures c.result.filename == filename && WellFormed(c.result)
    ensures c.result.success ==> c.result.solution == Some(script[c.attempts - 1].text)
    ensures !c.result.success ==> c.attempts == Config.MaxRetries
                                  && c.result.error == Some("Failed after 3 attempts")
    ensures c.result.timeTaken == Elapsed(script, c.attempts)
    ensures c.sleeps == Sleeps(script, c.attempts)
  {
    match FirstAnswer(script, Config.MaxRetries)
    case Some(k) =>
      Call(SolveResult(filename, true, Some(script[k].text), None, Elapsed(script, k + 1)),
           k + 1, Sleeps(script, k + 1))
    case None =>
      Call(SolveResult(filename, false, None, Some(FailedMessage()), Elapsed(script, Config.MaxRetries)),
           Config.MaxRetries, Sleeps(script, Config.MaxRetries))
  }

  /** The call's outputs when attempt `k` brings the first answer. */
  lemma SolveAnsweredAt(filename: string, script: Script, k: nat)
    requires k < Config.MaxRetries && FirstAnswer(script, k).None? && script[k].Answer?
    ensures Solve(filename, script)
            == Call(SolveResult(filename, true, Some(script[k].text), None, Elapsed(script, k + 1)),
                    k + 1, Sleeps(script, k + 1))
  {
    FirstAnswerAt(script, k, Config.MaxRetries);
  }

  /** The call's outputs when no attempt is answered. */
  lemma SolveUnanswered(filename: string, script: Script)
    requires FirstAnswer(script, Config.MaxRetries).None?
    ensures Solve(filename, script)
            == Call(SolveResult(filename, false, None, Some(FailedMessage()), Elapsed(script, Config.MaxRetries)),
                    Config.MaxRetries, Sleeps(script, Config.MaxRetries))
  {
  }

  /** A sleep of d seconds happens exactly when some attempt j before `n`,
      other than the last one, raised an error and d = RETRY_DELAY * (j + 1):
      a timeout never sleeps. */
  lemma {:induction false} SleepsExactly(script: seq<Attempt>, n: nat, d: nat)
    requires n <= |script|
    ensures d in Sleeps(script, n) <==>
      exists j :: 0 <= j < n && j < Config.MaxRetries - 1 && script[j].Raised? && d == Config.RetryDelay * (j + 1)
  {
    if n > 0 {
      SleepsExactly(script, n - 1, d);
    }
  }

  /** The back-off is linear and grows: each sleep is longer than the one
      before, and there are fewer sleeps than attempts. */
  lemma {:induction false} SleepsIncrease(script: seq<Attempt>, n: nat)
    requires n <= |script|
    ensures |Sleeps(script, n)| <= n && |Sleeps(script, n)| <= Config.MaxRetries - 1
    ensures forall i :: 0 <= i < |Sleeps(script, n)| ==> Sleeps(script, n)[i] < Config.RetryDelay * (n + 1)
    ensures forall i, k :: 0 <= i < k < |Sleeps(script, n)| ==> Sleeps(script, n)[i] < Sleeps(script, n)[k]
  {
    if n > 0 {
      SleepsIncrease(script, n - 1);
      if n - 1 >= Config.MaxRetries - 1 {
        assert BackoffAfter(script, n - 1) == [];
      }
    }
  }

  /** Without a raised error there is no sleep at all. */
  lemma {:induction false} NoErrorNoSleep(script: seq<Attempt>, n: nat)
    requires n <= |script|
    requires forall j :: 0 <= j < n ==> !script[j].Raised?
    ensures Sleeps(script, n) == []
  {
    if n > 0 {
      NoErrorNoSleep(script, n - 1);
    }
  }

  lemma {:induction false} TookCovers(script: seq<Attempt>, n: nat, j: nat)
    requires j < n <= |script|
    ensures script[j].took <= Took(script, n)
  {
    if j < n - 1 {
      TookCovers(script, n - 1, j);
    } else {
      TookNonNegative(script, n - 1);
    }
  }

  lemma {:induction false} TookNonNegative(script: seq<Attempt>, n: nat)
    requires n <= |script|
    ensures Took(script, n) >= 0.0
  {
    if n > 0 {
      TookNonNegative(script, n - 1);
    }
  }

  /** `time_taken` is measured from before the first attempt: it counts
      every attempt consumed, the failed ones included, and every sleep. */
  lemma ElapsedIncludesEarlierAttempts(filename: string, script: Script, j: nat)
    requires j < Solve(filename, script).attempts
    ensures script[j].took <= Solve(filename, script).result.timeTaken
    ensures Sum(Solve(filename, script).sleeps) as real <= Solve(filename, script).result.timeTaken
  {
    var c := Solve(filename, script);
    TookCovers(script, c.attempts, j);
    TookNonNegative(script, c.attempts);
  }

  /** Two errors and then an answer: a success on the third attempt after
      sleeping 2 and then 4 seconds. */
  lemma FailTwiceThenAnswer(filename: string, e1: string, e2: string, text: string, d1: Duration, d2: Duration, d3: Duration)
    ensures var c := Solve(filename, [Raised(e1, d1), Raised(e2, d2), Answer(text, d3)]);
      c.result.success && c.attempts == 3 && c.result.solution == Some(text)
      && c.sleeps == [2, 4] && c.result.timeTaken == d1 + d2 + d3 + 6.0
  {
    var s: Script := [Raised(e1, d1), Raised(e2, d2), Answer(text, d3)];
    assert Sleeps(s, 1) == [2];
    assert Sleeps(s, 2) == [2, 4];
    assert Sleeps(s, 3) == [2, 4];
    assert Sum([2, 4]) == 6 by { assert [2, 4][..1] == [2]; }
    assert Took(s, 1) == d1;
    assert Took(s, 2) == d1 + d2;
  }

  /** Three errors: three attempts, a failure, and no sleep after the last. */
  lemma AlwaysRaising(filename: string, e1: string, e2: string, e3: string, d1: Duration, d2: Duration, d3: Duration)
    ensures var c := Solve(filename, [Raised(e1, d1), Raised(e2, d2), Raised(e3, d3)]);
      !c.result.success && c.attempts == 3 && c.result.error == Some("Failed after 3 attempts")
      && c.sleeps == [2, 4]
  {
    var s: Script := [Raised(e1, d1), Raised(e2, d2), Raised(e3, d3)];
    assert Sleeps(s, 1) == [2];
    assert Sleeps(s, 2) == [2, 4];
    assert Sleeps(s, 3) == [2, 4];
  }

  /** Three timeouts: a failure without any sleep. */
  lemma AlwaysTimingOut(filename: string, d1: Duration, d2: Duration, d3: Duration)
    ensures var c := Solve(filename, [Timeout(d1), Timeout(d2), Timeout(d3)]);
      !c.result.success && c.attempts == 3 && c.sleeps == []
      && c.result.timeTaken == d1 + d2 + d3
  {
    var s: Script := [Timeout(d1), Timeout(d2), Timeout(d3)];
    NoErrorNoSleep(s, 3);
    assert Took(s, 1) == d1;
    assert Took(s, 2) == d1 + d2;
  }

  /** `get_stats()`. */
  datatype Stats = Stats(totalRequests: nat, totalTime: real, avgTime: real)

  /** The message of the `ValueError` a client without a key raises. */
  const KeyMissingMessage := "Gemini API key not found! Set GEMINI_API_KEY in .env file or pass it directly."

  /** `api_key or GEMINI_API_KEY`, and the constructor's check of it. */
  function ResolveKey(apiKey: Option<string>, configured: string): (r: Result<string, string>)
    ensures r.Success? ==> r.value != ""
    ensures r.Failure? <==> (apiKey.None? || apiKey.value == "") && configured == ""
    ensures r.Failure? ==> r.error == KeyMissingMessage
    ensures r.Success? && apiKey.Some? && apiKey.value != "" ==> r.value == apiKey.value
    ensures r.Success? && (apiKey.None? || apiKey.value == "") ==> r.value == configured
  {
    var key := if apiKey.Some? && apiKey.value != "" then apiKey.value else configured;
    if key == "" then Failure(KeyMissingMessage) else Success(key)
  }

  class GeminiClient {
    const apiKey: string
    var requestCount: nat
    var totalTime: real

    /** Every client has a key; the counters only ever grow together. */
    ghost predicate Valid()
      reads this
    {
      apiKey != "" && totalTime >= 0.0 && (requestCount == 0 ==> totalTime == 0.0)
    }

    /** The constructor once the key check has passed (see `NewClient`). */
    constructor (key: string)
      requires key != ""
      ensures Valid() && apiKey == key && requestCount == 0 && totalTime == 0.0
    {
      apiKey := key;
      requestCount := 0;
      totalTime := 0.0;
    }

    /** `solve_question`: up to MAX_RETRIES attempts, returning at the first
        answer; only a successful call updates the counters. */
    method SolveQuestion(filename: string, script: Script) returns (r: SolveResult, attempts: nat, sleeps: seq<nat>)
      requires Valid()
      modifies this
      ensures Valid()
      ensures Call(r, attempts, sleeps) == Solve(filename, script)
      ensures requestCount == old(requestCount) + (if r.success then 1 else 0)
      ensures totalTime == old(totalTime) + (if r.success then r.timeTaken else 0.0)
    {
      var clock: real := 0.0;
      sleeps := [];
      var attempt: nat := 0;
      while attempt < Config.MaxRetries
        invariant attempt <= Config.MaxRetries
        invariant clock >= 0.0
        invariant FirstAnswer(script, attempt).None?
        invariant sleeps == Sleeps(script, attempt)
        invariant clock == Elapsed(script, attempt)
        invariant requestCount == old(requestCount) && totalTime == old(totalTime)
      {
        var outcome := script[attempt];
        ElapsedStep(script, attempt);
        clock := clock + outcome.took;
        if outcome.Answer? {
          SolveAnsweredAt(filename, script, attempt);
          requestCount := requestCount + 1;
          totalTime := totalTime + clock;
          return SolveResult(filename, true, Some(outcome.text), None, clock), attempt + 1, sleeps;
        }
        // A timeout or a raised error; only an error sleeps, and not after the last attempt.
        if outcome.Raised? && attempt < Config.MaxRetries - 1 {
          var delay := Config.RetryDelay * (attempt + 1);
          sleeps := sleeps + [delay];
          clock := clock + delay as real;
        }
        attempt := attempt + 1;
      }
      SolveUnanswered(filename, script);
      r := SolveResult(filename, false, None, Some(FailedMessage()), clock);
      attempts := Config.MaxRetries;
    }

    /** `get_stats()`: the average is the total over max(1, count). */
    function GetStats(): (s: Stats)
      reads this
      requires Valid()
      ensures s.totalRequests == requestCount && s.totalTime == totalTime
      ensures s.avgTime >= 0.0
      ensures s.avgTime * (if requestCount == 0 then 1 else requestCount) as real == totalTime
      ensures requestCount == 0 ==> s.avgTime == 0.0
    {
      var n := if requestCount == 0 then 1 else requestCount;
      Stats(requestCount, totalTime, totalTime / n as real)
    }
  }

  /** `GeminiClient(api_key)`: raises `ValueError` when neither the argument
      nor the configuration supplies a key, so no client exists without one. */
  method NewClient(apiKey: Option<string>, configured: string) returns (r: Result<GeminiClient, string>)
    ensures r.Failure? <==> ResolveKey(apiKey, configured).Failure?
    ensures r.Failure? ==> r.error == KeyMissingMessage
    ensures r.Success? ==> fresh(r.value) && r.value.Valid()
                           && r.value.apiKey == ResolveKey(apiKey, configured).value
                           && r.value.requestCount == 0 && r.value.totalTime == 0.0
  {
    match ResolveKey(apiKey, configured) {
      case Failure(e) => r := Failure(e);
      case Success(key) =>
        var client := new GeminiClient(key);
        r := Success(client);
    }
  }
}

/** The batch map of src/parallel_processor.py.

    `process_all` starts one `solve_question` call per image and awaits them
    with `asyncio.gather`, which returns the results in task-creation order.
    Each call's outcome depends only on its own script, so the model runs
    the calls one after another, in list order; the semaphore that bounds
    how many run at once is not modelled. */
module Parallel {
  import opened Common
  import opened Gemini
  import Images

  /** The result list `asyncio.gather` hands back: entry i is the call for image i. */
  function Gather(images: seq<Images.Image>, scripts: seq<Script>): seq<SolveResult>
    requires |scripts| == |images|
  {
    seq(|images|, i requires 0 <= i < |images| => Solve(images[i].filename, scripts[i]).result)
  }

  /** The results come back in submission order, one per image. */
  lemma GatherKeepsOrder(images: seq<Images.Image>, scripts: seq<Script>, i: nat)
    requires |scripts| == |images| && i < |images|
    ensures |Gather(images, scripts)| == |images|
    ensures Gather(images, scripts)[i] == Solve(images[i].filename, scripts[i]).result
    ensures Gather(images, scripts)[i].filename == images[i].filename
    ensures Gather(images, scripts)[i].success
            <==> exists j :: 0 <= j < |scripts[i]| && scripts[i][j].Answer?
  {
  }

  /** One more call adds its result at the end. */
  lemma GatherStep(images: seq<Images.Image>, scripts: seq<Script>, i: nat)
    requires |scripts| == |images| && i < |images|
    ensures Gather(images, scripts)[..i + 1]
            == Gather(images, scripts)[..i] + [Solve(images[i].filename, scripts[i]).result]
  {
  }

  /** `sum(1 for r in results if r["success"])`. */
  function SuccessCount(rs: seq<SolveResult>): nat {
    if rs == [] then 0 else SuccessCount(rs[..|rs| - 1]) + (if rs[|rs| - 1].success then 1 else 0)
  }

  /** The number of failed results. */
  function FailureCount(rs: seq<SolveResult>): nat {
    if rs == [] then 0 else FailureCount(rs[..|rs| - 1]) + (if rs[|rs| - 1].success then 0 else 1)
  }

  lemma {:induction false} SuccessPlusFailure(rs: seq<SolveResult>)
    ensures SuccessCount(rs) + FailureCount(rs) == |rs|
  {
    if rs != [] {
      SuccessPlusFailure(rs[..|rs| - 1]);
    }
  }

  /** The seconds that successful results add to the client's `_total_time`. */
  function SuccessTime(rs: seq<SolveResult>): real {
    if rs == [] then 0.0
    else SuccessTime(rs[..|rs| - 1]) + (if rs[|rs| - 1].success then rs[|rs| - 1].timeTaken else 0.0)
  }

  lemma CountsSnoc(rs: seq<SolveResult>, r: SolveResult)
    ensures SuccessCount(rs + [r]) == SuccessCount(rs) + (if r.success then 1 else 0)
    ensures SuccessTime(rs + [r]) == SuccessTime(rs) + (if r.success then r.timeTaken else 0.0)
  {
    assert (rs + [r])[..|rs|] == rs;
  }

  /** The summary counts of `process_all`: `failed = len(results) - successful`. */
  function Counts(rs: seq<SolveResult>): (c: (nat, nat))
    ensures c.0 == SuccessCount(rs) && c.1 == FailureCount(rs)
    ensures c.0 + c.1 == |rs|
  {
    SuccessPlusFailure(rs);
    (SuccessCount(rs), |rs| - SuccessCount(rs))
  }

  /** Five images where the fourth (index 3) never gets an answer and the
      others are answered at once: four successes, one failure, in order. */
  lemma FiveImagesOneFailing(images: seq<Images.Image>, scripts: seq<Script>)
    requires |images| == 5 && |scripts| == 5
    requires forall i :: 0 <= i < 5 && i != 3 ==> scripts[i][0].Answer?
    requires forall j :: 0 <= j < 3 ==> scripts[3][j].Timeout?
    ensures var rs := Gather(images, scripts);
      |rs| == 5 && (forall i :: 0 <= i < 5 ==> rs[i].filename == images[i].filename)
      && !rs[3].success && Counts(rs) == (4, 1)
  {
    var rs := Gather(images, scripts);
    assert !rs[3].success;
    forall i | 0 <= i < 5 && i != 3 ensures rs[i].success {
      assert Solve(images[i].filename, scripts[i]).attempts == 1;
    }
    assert rs[..4] == rs[..3] + [rs[3]] && rs[..3] == rs[..2] + [rs[2]];
    assert rs[..2] == rs[..1] + [rs[1]] && rs[..1] == [] + [rs[0]];
    CountsSnoc([], rs[0]);
    CountsSnoc(rs[..1], rs[1]);
    CountsSnoc(rs[..2], rs[2]);
    CountsSnoc(rs[..3], rs[3]);
    CountsSnoc(rs[..4], rs[4]);
    assert rs == rs[..4] + [rs[4]];
  }

  class ParallelProcessor {
    const client: GeminiClient
    const maxConcurrent: int
    var results: seq<SolveResult>

    /** The client has a key, and every stored result is a success with a
        solution or a failure with an error. */
    ghost predicate Valid()
      reads this, client
    {
      client.Valid() && forall i :: 0 <= i < |results| ==> WellFormed(results[i])
    }

    /** `ParallelProcessor(client, max_concurrent)` with a client supplied. */
    constructor (client: GeminiClient, maxConcurrent: int)
      requires client.Valid()
      ensures Valid() && this.client == client && this.maxConcurrent == maxConcurrent
      ensures results == []
    {
      this.client := client;
      this.maxConcurrent := maxConcurrent;
      results := [];
    }

    /** `process_all(images)`: nothing is solved for an empty list, and then
        `self.results` keeps whatever an earlier call left there. */
    method ProcessAll(images: seq<Images.Image>, scripts: seq<Script>) returns (rs: seq<SolveResult>)
      requires Valid() && |scripts| == |images|
      modifies this, client
      ensures Valid()
      ensures rs == Gather(images, scripts)
      ensures images == [] ==> rs == [] && results == old(results)
                               && client.requestCount == old(client.requestCount)
                               && client.totalTime == old(client.totalTime)
      ensures images != [] ==> results == rs
      ensures client.requestCount == old(client.requestCount) + SuccessCount(rs)
      ensures client.totalTime == old(client.totalTime) + SuccessTime(rs)
    {
      if images == [] {
        return [];
      }
      var gathered: seq<SolveResult> := [];
      for i := 0 to |images|
        invariant client.Valid()
        invariant gathered == Gather(images, scripts)[..i]
        invariant client.requestCount == old(client.requestCount) + SuccessCount(gathered)
        invariant client.totalTime == old(client.totalTime) + SuccessTime(gathered)
      {
        var r, _, _ := client.SolveQuestion(images[i].filename, scripts[i]);
        GatherStep(images, scripts, i);
        CountsSnoc(gathered, r);
        gathered := gathered + [r];
      }
      results := gathered;
      rs := results;
    }

    /** `get_results()`: the list the last non-empty `process_all` returned
        (see `ProcessAll`), each entry a success with a solution or a failure
        with an error. */
    function GetResults(): (r: seq<SolveResult>)
      reads this, client
      requires Valid()
      ensures r == results
      ensures forall i :: 0 <= i < |r| ==> WellFormed(r[i])
    {
      results
    }
  }
}

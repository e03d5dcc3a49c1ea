/** The exit code's verdict (internal/reporter/result/result-reporter.go). */
module Verdict {
  datatype Status = Unset | Skipped | Aborted | Success | Error | Failure

  datatype ScenarioResult = ScenarioResult(status: Status, requests: seq<Status>)

  predicate Bad(s: Status) {
    s == Failure || s == Error || s == Aborted
  }

  predicate Failed(r: ScenarioResult) {
    Bad(r.status) || exists s <- r.requests :: Bad(s)
  }

  class ResultReporter {
    var success: bool

    constructor ()
      ensures success
    {
      success := true;
    }

    /** Success stands exactly if it stood, as many results arrived as were announced, and none of them failed. */
    method Report(source: seq<ScenarioResult>, size: int)
      modifies this
      ensures success <==> old(success) && |source| == size && forall r <- source :: !Failed(r)
      ensures success <==> old(success) && |source| == size && forall r <- source ::
        r.status !in {Failure, Error, Aborted} && forall s <- r.requests :: s !in {Failure, Error, Aborted}
    {
      var count := 0;
      for i := 0 to |source|
        invariant success <==> old(success) && forall k :: 0 <= k < i ==> !Failed(source[k])
        invariant success ==> count == i
      {
        var result := source[i];
        if !success {
          continue;
        }
        if Bad(result.status) {
          assert Failed(source[i]);
          success := false;
          continue;
        }
        count := count + 1;
        for j := 0 to |result.requests|
          invariant success && count == i + 1
          invariant forall k :: 0 <= k < j ==> !Bad(result.requests[k])
        {
          if Bad(result.requests[j]) {
            assert Failed(source[i]);
            success := false;
            break;
          }
        }
      }
      success := success && count == size;
    }
  }
}

/** Success/failure values for the steps of the pipeline that can abort it. */
module Wrappers {

  /** Either the value a step computed or the error that aborts the run. */
  datatype Result<+R, +E> = Success(value: R) | Failure(error: E)

  /**
   * Running a sequence of fallible steps in order, as a Python loop or
   * `.apply` does: every value when all succeed, otherwise the error of the
   * first step that fails (the later ones never run).
   */
  function Collect<R, E>(rs: seq<Result<R, E>>): (r: Result<seq<R>, E>)
    ensures r.Success? <==> forall i :: 0 <= i < |rs| ==> rs[i].Success?
    ensures r.Success? ==> (|r.value| == |rs| && forall i :: 0 <= i < |rs| ==> r.value[i] == rs[i].value)
    ensures r.Failure? ==> FirstFailure(rs, r.error)
  {
    if rs == [] then Success([])
    else
      match rs[0]
      case Failure(e) => Failure(e)
      case Success(v) =>
        var rest := Collect(rs[1..]);
        if rest.Failure? then
          ShiftFirstFailure(rs, rest.error);
          Failure(rest.error)
        else
          Success([v] + rest.value)
  }

  /** Some step fails with `e`, and every step before it succeeds. */
  ghost predicate FirstFailure<R, E>(rs: seq<Result<R, E>>, e: E) {
    exists i :: 0 <= i < |rs| && rs[i] == Failure(e) && forall j :: 0 <= j < i ==> rs[j].Success?
  }

  lemma ShiftFirstFailure<R, E>(rs: seq<Result<R, E>>, e: E)
    requires rs != [] && rs[0].Success? && FirstFailure(rs[1..], e)
    ensures FirstFailure(rs, e)
  {
    var k :| 0 <= k < |rs[1..]| && rs[1..][k] == Failure(e) && forall j :: 0 <= j < k ==> rs[1..][j].Success?;
    assert rs[k + 1] == Failure(e);
    forall j | 0 <= j < k + 1 ensures rs[j].Success? {
      if j > 0 { assert rs[j] == rs[1..][j - 1]; }
    }
  }
}

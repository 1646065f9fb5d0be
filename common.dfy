/** Small value types, and one sequence helper, shared by every module of
    the model. */
module Common {

  /** Python's `None` / JavaScript's `null` versus a present value. */
  datatype Option<+T> = None | Some(value: T)

  /** The exceptions the backend raises on the paths the model covers. */
  datatype Fault =
    | StopIteration                  // `next(...)` over an exhausted generator
    | NotFound(detail: string)       // FastAPI `HTTPException(status_code=404, ...)`
    | MultipleResultsFound           // `scalar_one_or_none()` saw more than one row
    | MissingSetting(message: string) // `RuntimeError` raised at import time
    | IntegrityError                 // the commit violates a foreign key

  /** A computation that returns a value or raises a `Fault`. */
  datatype Result<+T> = Ok(value: T) | Err(fault: Fault)

  /** How an awaited request to the backend settles, as the frontend sees it:
      the promise resolves with a response body, or it rejects. */
  datatype Reply<+T> = Resolved(value: T) | Rejected

  /** The positions of the elements that satisfy `keep`, in increasing order:
      the index map of a list comprehension with a filter. */
  function Positions<T>(s: seq<T>, keep: T -> bool): (ix: seq<nat>)
    ensures forall k :: 0 <= k < |ix| ==> ix[k] < |s| && keep(s[ix[k]])
    ensures forall i :: 0 <= i < |s| && keep(s[i]) ==> i in ix
    ensures forall k, m :: 0 <= k < m < |ix| ==> ix[k] < ix[m]
  {
    if s == [] then []
    else
      var init := s[..|s| - 1];
      var earlier := Positions(init, keep);
      assert forall i :: 0 <= i < |init| ==> init[i] == s[i];
      if keep(s[|s| - 1]) then earlier + [|s| - 1] else earlier
  }

  /** A filter built from the back: keeping or dropping one more element
      keeps the filtered list equal to the elements at `Positions`. */
  lemma PositionsSnoc<T>(s: seq<T>, keep: T -> bool, earlier: seq<T>)
    requires s != []
    requires var prior := Positions(s[..|s| - 1], keep);
      |earlier| == |prior| && forall k :: 0 <= k < |earlier| ==> earlier[k] == s[..|s| - 1][prior[k]]
    ensures var ix := Positions(s, keep);
      var r := if keep(s[|s| - 1]) then earlier + [s[|s| - 1]] else earlier;
      |r| == |ix| && forall k :: 0 <= k < |r| ==> r[k] == s[ix[k]]
  {
    var prior := Positions(s[..|s| - 1], keep);
    assert forall k :: 0 <= k < |earlier| ==> earlier[k] == s[prior[k]];
  }
}

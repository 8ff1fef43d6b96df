/** Failure-carrying results, shaped after Rust's `Result`. */
module Wrappers {

  datatype Result<+T, +E> = Ok(value: T) | Err(error: E)

  datatype Option<+T> = None | Some(value: T)

  /** The index of the first failure in rs, or |rs| when there is none. */
  function FirstErr<T, E>(rs: seq<Result<T, E>>): (i: nat)
    ensures i <= |rs|
    ensures forall j :: 0 <= j < i ==> rs[j].Ok?
    ensures i < |rs| ==> rs[i].Err?
  {
    if |rs| == 0 || rs[0].Err? then 0
    else
      var i := FirstErr(rs[1..]);
      assert forall j :: 1 <= j < i + 1 ==> rs[j] == rs[1..][j - 1];
      1 + i
  }

  /** Rust's `collect::<Result<Vec<_>, _>>()`: all the values when every
      result is Ok, otherwise the first failure. */
  function Collect<T, E>(rs: seq<Result<T, E>>): (r: Result<seq<T>, E>)
    ensures r.Ok? <==> FirstErr(rs) == |rs|
    ensures r.Ok? ==> |r.value| == |rs| && forall i :: 0 <= i < |rs| ==> rs[i] == Ok(r.value[i])
    ensures r.Err? ==> FirstErr(rs) < |rs| && rs[FirstErr(rs)] == Err(r.error)
  {
    if |rs| == 0 then Ok([])
    else
      match rs[0]
      case Err(e) => Err(e)
      case Ok(v) =>
        match Collect(rs[1..])
        case Err(e) => Err(e)
        case Ok(vs) =>
          assert forall i :: 1 <= i < |rs| ==> rs[i] == rs[1..][i - 1];
          Ok([v] + vs)
  }
}

/** Outcomes of the generator's Python code: a value, or the exception Python raises. */
module PyErrors {

  /** The exceptions the generator raises on its own inputs (the I/O ones are not modelled). */
  datatype PyError =
    | IndexError          // `split()[k]` on a short line, `vals[val_idx]` past the end
    | UnicodeDecodeError  // `unicode_escape` decoding of a lone backslash

  datatype Result<+T> = Ok(value: T) | Err(error: PyError)

  datatype Option<+T> = None | Some(value: T)

  /** A list comprehension whose element expression may raise: every element mapped in
      order, and the first exception propagates. */
  function MapResult<T, U>(xs: seq<T>, f: T -> Result<U>): (r: Result<seq<U>>)
    ensures r.Ok? ==> |r.value| == |xs|
    ensures r.Ok? ==> forall i :: 0 <= i < |xs| ==> f(xs[i]) == Ok(r.value[i])
    ensures r.Err? <==> exists i :: 0 <= i < |xs| && f(xs[i]).Err?
    ensures r.Err? ==> exists i :: 0 <= i < |xs| && f(xs[i]) == Err(r.error)
    decreases |xs|
  {
    if xs == [] then Ok([])
    else
      match f(xs[0])
      case Err(e) => Err(e)
      case Ok(y) =>
        match MapResult(xs[1..], f)
        case Err(e) =>
          var i :| 0 <= i < |xs| - 1 && f(xs[1..][i]) == Err(e);
          assert xs[1..][i] == xs[i + 1];
          Err(e)
        case Ok(rest) =>
          assert forall i :: 1 <= i < |xs| ==> xs[i] == xs[1..][i - 1];
          Ok([y] + rest)
  }

  /** A one-element comprehension. */
  lemma MapResultSingle<T, U>(x: T, f: T -> Result<U>)
    ensures MapResult([x], f) == if f(x).Ok? then Ok([f(x).value]) else Err(f(x).error)
  {
    assert [x][0] == x && [x][1..] == [];
    assert MapResult([x][1..], f) == Ok([]);
    if f(x).Ok? {
      assert [f(x).value] + [] == [f(x).value];
    }
  }
}

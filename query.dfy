/** `query.filter(...).first()` over a table kept in storage order. */
module Query {
  import opened Http

  /** The position of the first row that satisfies the filter, if any. */
  function First<T>(rows: seq<T>, p: T -> bool): (r: Option<nat>)
    ensures r.None? <==> forall i :: 0 <= i < |rows| ==> !p(rows[i])
    ensures r.Some? ==> r.value < |rows| && p(rows[r.value])
    ensures r.Some? ==> forall i :: 0 <= i < r.value ==> !p(rows[i])
  {
    if |rows| == 0 then None
    else if p(rows[0]) then Some(0)
    else
      match First(rows[1..], p)
      case None => None
      case Some(i) => Some(i + 1)
  }

  /** A row appended after every earlier row fails the filter is the first match. */
  lemma FirstOfAppended<T>(rows: seq<T>, x: T, p: T -> bool)
    requires forall i :: 0 <= i < |rows| ==> !p(rows[i])
    requires p(x)
    ensures First(rows + [x], p) == Some(|rows|)
  {
    assert (rows + [x])[|rows|] == x;
    assert forall i :: 0 <= i < |rows| ==> (rows + [x])[i] == rows[i];
  }
}

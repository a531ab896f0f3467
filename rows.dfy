/** Decoding the rows of a response one by one, as every fetch loop of both
    clients does: the rows are taken in order, and the first row that fails
    to decode ends the loop with its error. */
module Rows {
  import opened Wrappers

  /** Every row decoded in order; the first row that fails decides the
      error. */
  function ConvertAll<R, Q, E>(decode: R -> Result<Q, E>, rows: seq<R>): (r: Result<seq<Q>, E>)
    ensures r.Ok? ==> (|r.value| == |rows|
      && forall i :: 0 <= i < |rows| ==> decode(rows[i]) == Ok(r.value[i]))
  {
    if |rows| == 0 then Ok([])
    else
      var init :- ConvertAll(decode, rows[..|rows| - 1]);
      var q :- decode(rows[|rows| - 1]);
      assert forall i :: 0 <= i < |rows| - 1 ==> rows[..|rows| - 1][i] == rows[i];
      Ok(init + [q])
  }

  /** One more row: its error, or its quote appended. */
  lemma {:induction false} ConvertAllStep<R, Q, E>(decode: R -> Result<Q, E>, rows: seq<R>, i: nat)
    requires i < |rows| && ConvertAll(decode, rows[..i]).Ok?
    ensures decode(rows[i]).Err? ==> ConvertAll(decode, rows[..i + 1]) == Err(decode(rows[i]).error)
    ensures decode(rows[i]).Ok? ==>
      ConvertAll(decode, rows[..i + 1]) == Ok(ConvertAll(decode, rows[..i]).value + [decode(rows[i]).value])
  {
    assert rows[..i + 1][..i] == rows[..i];
  }

  /** A failure among the first rows is the failure of all of them. */
  lemma {:induction false} ConvertAllPrefixErr<R, Q, E>(decode: R -> Result<Q, E>, rows: seq<R>, i: nat)
    requires i <= |rows| && ConvertAll(decode, rows[..i]).Err?
    ensures ConvertAll(decode, rows) == ConvertAll(decode, rows[..i])
    decreases |rows| - i
  {
    if i == |rows| {
      assert rows[..i] == rows;
    } else {
      assert rows[..i + 1][..i] == rows[..i];
      ConvertAllPrefixErr(decode, rows, i + 1);
    }
  }

  /** The result is an error exactly when some row fails, and then it is the
      error of the first failing row. */
  lemma {:induction false} ConvertAllFirstError<R, Q, E>(decode: R -> Result<Q, E>, rows: seq<R>)
    ensures ConvertAll(decode, rows).Err? <==> exists i :: 0 <= i < |rows| && decode(rows[i]).Err?
    ensures ConvertAll(decode, rows).Err? ==>
      exists i :: (0 <= i < |rows| && decode(rows[i]).Err? && ConvertAll(decode, rows).error == decode(rows[i]).error
        && (forall j :: 0 <= j < i ==> decode(rows[j]).Ok?))
  {
    if |rows| > 0 {
      var init := rows[..|rows| - 1];
      ConvertAllFirstError(decode, init);
      if ConvertAll(decode, init).Err? {
        var i :| 0 <= i < |init| && decode(init[i]).Err?
          && ConvertAll(decode, init).error == decode(init[i]).error
          && forall j :: 0 <= j < i ==> decode(init[j]).Ok?;
        assert decode(rows[i]).Err?;
        forall j | 0 <= j < i ensures decode(rows[j]).Ok? {
          assert rows[j] == init[j];
        }
      } else if decode(rows[|rows| - 1]).Err? {
        var last := |rows| - 1;
        forall j | 0 <= j < last ensures decode(rows[j]).Ok? {
          assert rows[j] == init[j];
        }
      }
    }
  }
}

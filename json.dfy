/** Decoded JSON, as `encoding/json` hands it to the clients: a response
    body is a `map[string]json.RawMessage`, and each raw message is later
    unmarshalled into a `string`, a `[]string`, a `[][]string` or a
    `[][]interface{}`. The model takes the body already parsed into a tree. */
module JsonValue {
  import opened Wrappers

  /** A parsed JSON value. Numbers are integral (every number the exchanges
      send in the fields read as numbers is a whole number); booleans and
      objects are not read by the clients and are all `JOther`. */
  datatype Json = JNull | JStr(s: string) | JNum(n: int) | JArray(elems: seq<Json>) | JOther

  /** A value held by an `interface{}` after decoding: what a cell of a
      `[][]interface{}` becomes. JSON null becomes a nil interface, which is
      neither a string nor a number. */
  datatype Scalar = Str(s: string) | Num(n: int) | Other

  function ScalarOf(j: Json): (v: Scalar)
    ensures v.Str? <==> j.JStr?
    ensures v.Num? <==> j.JNum?
    ensures j.JStr? ==> v.s == j.s
    ensures j.JNum? ==> v.n == j.n
  {
    match j
    case JStr(s) => Str(s)
    case JNum(n) => Num(n)
    case _ => Other
  }

  /** `json.Unmarshal(raw, &s)` with `s` a string: a JSON string, or null,
      which leaves `s` empty; anything else is an error. */
  function ToString(j: Json): (r: Option<string>)
    ensures r.Some? <==> j.JStr? || j.JNull?
    ensures j.JStr? ==> r == Some(j.s)
    ensures j.JNull? ==> r == Some("")
  {
    match j
    case JStr(s) => Some(s)
    case JNull => Some("")
    case _ => None
  }

  /** `json.Unmarshal(raw, &xs)` with `xs` a `[]string`: null gives the nil
      slice; an array must hold strings or nulls. */
  function ToStrings(j: Json): (r: Option<seq<string>>)
    ensures j.JNull? ==> r == Some([])
    ensures r.Some? && j.JArray? ==> (|r.value| == |j.elems|
      && forall k :: 0 <= k < |j.elems| ==> ToString(j.elems[k]) == Some(r.value[k]))
    ensures j.JArray? ==> (r.Some? <==> forall k :: 0 <= k < |j.elems| ==> ToString(j.elems[k]).Some?)
    ensures !j.JNull? && !j.JArray? ==> r.None?
  {
    match j
    case JNull => Some([])
    case JArray(elems) => StringsOf(elems)
    case _ => None
  }

  function StringsOf(elems: seq<Json>): (r: Option<seq<string>>)
    ensures r.Some? ==> (|r.value| == |elems|
      && forall k :: 0 <= k < |elems| ==> ToString(elems[k]) == Some(r.value[k]))
    ensures r.Some? <==> forall k :: 0 <= k < |elems| ==> ToString(elems[k]).Some?
  {
    if |elems| == 0 then Some([])
    else
      var head := ToString(elems[0]);
      var rest := StringsOf(elems[1..]);
      if head.Some? && rest.Some? then Some([head.value] + rest.value)
      else
        assert ToString(elems[0]).None? || exists k :: 1 <= k < |elems| && ToString(elems[k]).None? by {
          if head.Some? {
            var k :| 0 <= k < |elems[1..]| && ToString(elems[1..][k]).None?;
            assert ToString(elems[k + 1]).None?;
          }
        }
        None
  }

  /** `json.Unmarshal(raw, &rows)` with `rows` a `[][]interface{}`: null
      gives no rows; every row is an array (or null, an empty row) whose
      cells become scalars. */
  function ToRows(j: Json): (r: Option<seq<seq<Scalar>>>)
    ensures j.JNull? ==> r == Some([])
    ensures r.Some? && j.JArray? ==> (|r.value| == |j.elems|
      && forall i :: 0 <= i < |j.elems| ==> RowOf(j.elems[i]) == Some(r.value[i]))
    ensures j.JArray? ==> (r.Some? <==> forall i :: 0 <= i < |j.elems| ==> RowOf(j.elems[i]).Some?)
    ensures !j.JNull? && !j.JArray? ==> r.None?
  {
    match j
    case JNull => Some([])
    case JArray(rows) => RowsOf(rows)
    case _ => None
  }

  /** One row of a `[][]interface{}`. */
  function RowOf(j: Json): (r: Option<seq<Scalar>>)
    ensures r.Some? <==> j.JNull? || j.JArray?
    ensures j.JArray? ==> (r.Some? && |r.value| == |j.elems|
      && forall k :: 0 <= k < |j.elems| ==> r.value[k] == ScalarOf(j.elems[k]))
  {
    match j
    case JNull => Some([])
    case JArray(cells) => Some(seq(|cells|, k requires 0 <= k < |cells| => ScalarOf(cells[k])))
    case _ => None
  }

  function RowsOf(rows: seq<Json>): (r: Option<seq<seq<Scalar>>>)
    ensures r.Some? ==> (|r.value| == |rows|
      && forall i :: 0 <= i < |rows| ==> RowOf(rows[i]) == Some(r.value[i]))
    ensures r.Some? <==> forall i :: 0 <= i < |rows| ==> RowOf(rows[i]).Some?
  {
    if |rows| == 0 then Some([])
    else
      var head := RowOf(rows[0]);
      var rest := RowsOf(rows[1..]);
      if head.Some? && rest.Some? then Some([head.value] + rest.value)
      else
        assert RowOf(rows[0]).None? || exists i :: 1 <= i < |rows| && RowOf(rows[i]).None? by {
          if head.Some? {
            var i :| 0 <= i < |rows[1..]| && RowOf(rows[1..][i]).None?;
            assert RowOf(rows[i + 1]).None?;
          }
        }
        None
  }

  /** `json.Unmarshal(raw, &rows)` with `rows` a `[][]string`: null gives no
      rows; every row is a `[]string`. */
  function ToStringRows(j: Json): (r: Option<seq<seq<string>>>)
    ensures j.JNull? ==> r == Some([])
    ensures r.Some? && j.JArray? ==> (|r.value| == |j.elems|
      && forall i :: 0 <= i < |j.elems| ==> ToStrings(j.elems[i]) == Some(r.value[i]))
    ensures j.JArray? ==> (r.Some? <==> forall i :: 0 <= i < |j.elems| ==> ToStrings(j.elems[i]).Some?)
    ensures !j.JNull? && !j.JArray? ==> r.None?
  {
    match j
    case JNull => Some([])
    case JArray(rows) => StringRowsOf(rows)
    case _ => None
  }

  function StringRowsOf(rows: seq<Json>): (r: Option<seq<seq<string>>>)
    ensures r.Some? ==> (|r.value| == |rows|
      && forall i :: 0 <= i < |rows| ==> ToStrings(rows[i]) == Some(r.value[i]))
    ensures r.Some? <==> forall i :: 0 <= i < |rows| ==> ToStrings(rows[i]).Some?
  {
    if |rows| == 0 then Some([])
    else
      var head := ToStrings(rows[0]);
      var rest := StringRowsOf(rows[1..]);
      if head.Some? && rest.Some? then Some([head.value] + rest.value)
      else
        assert ToStrings(rows[0]).None? || exists i :: 1 <= i < |rows| && ToStrings(rows[i]).None? by {
          if head.Some? {
            var i :| 0 <= i < |rows[1..]| && ToStrings(rows[1..][i]).None?;
            assert ToStrings(rows[i + 1]).None?;
          }
        }
        None
  }

  /** The JSON encoding of a list of strings. */
  function StringArray(xs: seq<string>): (j: Json)
    ensures j.JArray? && |j.elems| == |xs|
    ensures forall k :: 0 <= k < |xs| ==> j.elems[k] == JStr(xs[k])
  {
    JArray(seq(|xs|, k requires 0 <= k < |xs| => JStr(xs[k])))
  }

  /** Decoding an encoded list of strings gives the list back. */
  lemma {:induction false} ToStringsOfStringArray(xs: seq<string>)
    ensures ToStrings(StringArray(xs)) == Some(xs)
  {
    var j := StringArray(xs);
    assert forall k :: 0 <= k < |xs| ==> ToString(j.elems[k]) == Some(xs[k]);
    var r := ToStrings(j);
    assert r.Some?;
    assert r.value == xs;
  }
}

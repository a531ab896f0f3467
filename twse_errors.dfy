/** The outcomes of a failed TWSE call: the three error types the package
    exports (`NoDataError`, `QuotaExceededError`, `ConnectionError`) with
    their `Error()` strings, plain `fmt.Errorf` errors, and panics. */
module TwseErrors {

  datatype Error =
    | NoData(message: string)
    | QuotaExceeded(message: string)
    | ConnectionError(message: string)
      /** An error made by `fmt.Errorf`; its text is the message itself. */
    | Failed(message: string)
      /** A `panic`: not a returned error, but the end of the call. */
    | Panicked(message: string)

  /** One of the three error types the package exports. */
  predicate IsTyped(e: Error) {
    e.NoData? || e.QuotaExceeded? || e.ConnectionError?
  }

  function Prefix(e: Error): (p: string)
    requires IsTyped(e)
    ensures |p| > 0
  {
    match e
    case NoData(_) => "NoData: "
    case QuotaExceeded(_) => "QuotaExceeded: "
    case ConnectionError(_) => "ConnectionError: "
  }

  /** The `Error()` method of each error type. */
  function ErrorString(e: Error): (s: string)
    requires !e.Panicked?
    ensures IsTyped(e) ==> |s| >= |Prefix(e)| && s[..|Prefix(e)|] == Prefix(e) && s[|Prefix(e)|..] == e.message
    ensures e.Failed? ==> s == e.message
  {
    if IsTyped(e) then Prefix(e) + e.message else e.message
  }

  /** The three prefixes start with different letters, so a rendered typed
      error determines its kind and its message. */
  lemma {:induction false} ErrorStringInjective(e1: Error, e2: Error)
    requires IsTyped(e1) && IsTyped(e2)
    requires ErrorString(e1) == ErrorString(e2)
    ensures e1 == e2
  {
    var s := ErrorString(e1);
    assert s[0] == Prefix(e1)[0] && s[0] == Prefix(e2)[0];
    assert Prefix(e1) == Prefix(e2);
    assert e1.message == s[|Prefix(e1)|..] == e2.message;
  }

  /** Errors of different kinds never render to the same string. */
  lemma {:induction false} DistinctKindsRenderDistinctly(e1: Error, e2: Error)
    requires IsTyped(e1) && IsTyped(e2)
    requires e1.NoData? != e2.NoData? || e1.QuotaExceeded? != e2.QuotaExceeded?
    ensures ErrorString(e1) != ErrorString(e2)
  {
    if ErrorString(e1) == ErrorString(e2) {
      ErrorStringInjective(e1, e2);
    }
  }
}

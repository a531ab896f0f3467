/** The quote record both clients return (`twse.Quote` and `tpex.Quote`
    have the same fields), and the keying of a list of quotes by code that
    both `FetchDayQuotes` loops perform. */
module Quotes {
  import opened GoStrconv
  import opened GoTime

  /** Prices are decimals: `units / 10^scale`. */
  type Price = Decimal

  datatype Quote = Quote(
    code: string,
    name: string,
    date: Date,
    volume: U64,
    transactions: U64,
    value: U64,
    high: Price,
    low: Price,
    open: Price,
    close: Price,
    dateOfHigh: Date,
    dateOfLow: Date)

  /** The zero `Quote{}`: empty strings, zero numbers, zero times. */
  const EmptyQuote := Quote("", "", ZeroTime, 0, 0, 0, Zero, Zero, Zero, Zero, ZeroTime, ZeroTime)

  /** The map left by `qs[q.Code] = q` for each quote in order, starting
      from the empty map. */
  function KeyByCode(quotes: seq<Quote>): (m: map<string, Quote>)
    ensures forall code :: code in m ==> m[code].code == code && m[code] in quotes
  {
    if |quotes| == 0 then map[]
    else
      var q := quotes[|quotes| - 1];
      var m := KeyByCode(quotes[..|quotes| - 1]);
      m[q.code := q]
  }

  /** One more quote is stored under its code over what was there. */
  lemma {:induction false} KeyByCodeSnoc(quotes: seq<Quote>, q: Quote)
    ensures KeyByCode(quotes + [q]) == KeyByCode(quotes)[q.code := q]
  {
    assert (quotes + [q])[..|quotes|] == quotes;
  }

  /** The keys are exactly the codes of the quotes. */
  lemma {:induction false} KeyByCodeKeys(quotes: seq<Quote>)
    ensures KeyByCode(quotes).Keys == set i | 0 <= i < |quotes| :: quotes[i].code
  {
    if |quotes| > 0 {
      var init := quotes[..|quotes| - 1];
      KeyByCodeKeys(init);
      var codes := set i | 0 <= i < |quotes| :: quotes[i].code;
      var initCodes := set i | 0 <= i < |init| :: init[i].code;
      assert codes == initCodes + {quotes[|quotes| - 1].code} by {
        forall c | c in codes ensures c in initCodes + {quotes[|quotes| - 1].code} {
          var i :| 0 <= i < |quotes| && quotes[i].code == c;
          if i < |init| { assert init[i].code == c; }
        }
        forall c | c in initCodes ensures c in codes {
          var i :| 0 <= i < |init| && init[i].code == c;
          assert quotes[i].code == c;
        }
      }
    }
  }

  /** A code maps to its last quote in the list: a later quote with the
      same code overwrites an earlier one. */
  lemma {:induction false} KeyByCodeLastWins(quotes: seq<Quote>, i: nat)
    requires i < |quotes|
    requires forall j :: i < j < |quotes| ==> quotes[j].code != quotes[i].code
    ensures quotes[i].code in KeyByCode(quotes)
    ensures KeyByCode(quotes)[quotes[i].code] == quotes[i]
  {
    if i < |quotes| - 1 {
      var init := quotes[..|quotes| - 1];
      KeyByCodeLastWins(init, i);
    }
  }

  /** Quotes with distinct codes are all kept: nothing is overwritten. */
  lemma {:induction false} KeyByCodeDistinct(quotes: seq<Quote>)
    requires forall i, j :: 0 <= i < j < |quotes| ==> quotes[i].code != quotes[j].code
    ensures |KeyByCode(quotes)| == |quotes|
  {
    if |quotes| > 0 {
      var init := quotes[..|quotes| - 1];
      var q := quotes[|quotes| - 1];
      KeyByCodeDistinct(init);
      KeyByCodeKeys(init);
      assert q.code !in KeyByCode(init);
    }
  }
}

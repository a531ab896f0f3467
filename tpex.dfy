/** The TPEx client after the network: the positional row decoders of the
    four endpoints, the line filter in front of the CSV reader, and the row
    loops of the four public `Fetch*` calls. A panic of the client is an
    error carrying its message. */
module Tpex {
  import opened Wrappers
  import opened GoStrings
  import opened GoStrconv
  import opened GoTime
  import opened JsonValue
  import opened Quotes
  import opened TpexDeserialize
  import opened Rows

  // ---------------------------------------------------------------------
  // Cells of a row

  /** `raw[k]` of a Go slice: an index out of range panics. */
  function At(raw: seq<string>, k: nat): (r: Result<string, string>)
    ensures r.Ok? <==> k < |raw|
    ensures r.Ok? ==> r.value == raw[k]
  {
    if k < |raw| then Ok(raw[k])
    else Err("index out of range [" + Itoa(k) + "] with length " + Itoa(|raw|))
  }

  /** `stringToUint64(item[k])`. */
  function Uint64At(item: seq<string>, k: nat): (r: Result<U64, string>)
    ensures r.Ok? <==> k < |item| && StringToUint64(item[k]).Ok?
    ensures r.Ok? ==> r == StringToUint64(item[k])
  {
    var s :- At(item, k);
    StringToUint64(s)
  }

  /** `stringToFloat64(item[k])`. */
  function Float64At(item: seq<string>, k: nat): (r: Result<Decimal, string>)
    ensures r.Ok? <==> k < |item| && StringToFloat64(item[k]).Ok?
    ensures r.Ok? ==> r == StringToFloat64(item[k])
  {
    var s :- At(item, k);
    StringToFloat64(s)
  }

  /** `strconv.Atoi(raw[k])`. */
  function IntAt(raw: seq<string>, k: nat, what: string): (r: Result<int, string>)
    ensures r.Ok? <==> k < |raw| && Atoi(raw[k]).Some?
    ensures r.Ok? ==> Some(r.value) == Atoi(raw[k])
  {
    var s :- At(raw, k);
    match Atoi(s)
    case None => Err("failed to parse " + what + " " + s)
    case Some(v) => Ok(v)
  }

  /** `strconv.ParseUint(strings.ReplaceAll(raw[k], ",", ""), 10, 64)`. */
  function CountAt(raw: seq<string>, k: nat, what: string): (r: Result<U64, string>)
    ensures r.Ok? <==> k < |raw| && ParseUint(RemoveAll(raw[k], ',')).Some?
    ensures r.Ok? ==> Some(r.value) == ParseUint(RemoveAll(raw[k], ','))
  {
    var s :- At(raw, k);
    match ParseUint(RemoveAll(s, ','))
    case None => Err("failed to parse " + what + " " + s)
    case Some(v) => Ok(v)
  }

  /** `strconv.ParseFloat(raw[k], 64)`: no comma is removed here. */
  function PriceAt(raw: seq<string>, k: nat, what: string): (r: Result<Decimal, string>)
    ensures r.Ok? <==> k < |raw| && ParseDecimal(raw[k]).Some?
    ensures r.Ok? ==> Some(r.value) == ParseDecimal(raw[k])
  {
    var s :- At(raw, k);
    match ParseDecimal(s)
    case None => Err("failed to parse " + what + " " + s)
    case Some(v) => Ok(v)
  }

  /** `time.Parse("01/02", raw[k])`. */
  function MonthDayAt(raw: seq<string>, k: nat, what: string): (r: Result<Date, string>)
    ensures r.Ok? <==> k < |raw| && ParseMonthDay(raw[k]).Some?
    ensures r.Ok? ==> Some(r.value) == ParseMonthDay(raw[k])
  {
    var s :- At(raw, k);
    match ParseMonthDay(s)
    case None => Err("failed to parse " + what + " " + s)
    case Some(d) => Ok(d)
  }

  // ---------------------------------------------------------------------
  // Row decoders

  /** A row of the all-stocks day report: code, name, close, open, high,
      low, volume, value and transactions at columns 0, 1, 2, 4, 5, 6, 8,
      9, 10, unscaled, dated with the query date. */
  function DayQuote(item: seq<string>, date: Date): (r: Result<Quote, string>)
    ensures r.Ok? <==> (|item| >= 11
      && StringToUint64(item[8]).Ok? && StringToUint64(item[10]).Ok? && StringToUint64(item[9]).Ok?
      && StringToFloat64(item[5]).Ok? && StringToFloat64(item[6]).Ok?
      && StringToFloat64(item[4]).Ok? && StringToFloat64(item[2]).Ok?)
    ensures r.Ok? ==> (|item| >= 11 && r.value.code == item[0] && r.value.name == item[1]
      && r.value.date == date
      && StringToUint64(item[8]) == Ok(r.value.volume)
      && StringToUint64(item[10]) == Ok(r.value.transactions)
      && StringToUint64(item[9]) == Ok(r.value.value)
      && StringToFloat64(item[5]) == Ok(r.value.high)
      && StringToFloat64(item[6]) == Ok(r.value.low)
      && StringToFloat64(item[4]) == Ok(r.value.open)
      && StringToFloat64(item[2]) == Ok(r.value.close)
      && r.value.dateOfHigh == ZeroTime && r.value.dateOfLow == ZeroTime)
    ensures |item| < 11 ==> r.Err?
  {
    var code :- At(item, 0);
    var name :- At(item, 1);
    var volume :- Uint64At(item, 8);
    var transactions :- Uint64At(item, 10);
    var value :- Uint64At(item, 9);
    var high :- Float64At(item, 5);
    var low :- Float64At(item, 6);
    var open :- Float64At(item, 4);
    var close :- Float64At(item, 2);
    Ok(Quote(code, name, date, volume, transactions, value, high, low, open, close, ZeroTime, ZeroTime))
  }

  /** A row of one stock's month: the date (ROC) at column 0, volume and
      value in thousands at columns 1 and 2, open, high, low and close at
      3 to 6, transactions unscaled at 8; the name is the body's `stkName`,
      read again for every row. */
  function DailyQuote(body: map<string, Json>, item: seq<string>, code: string): (r: Result<Quote, string>)
    ensures r.Ok? <==> (DeserializeString(body, "stkName").Ok? && |item| >= 9
      && StringToDate(item[0]).Ok?
      && StringToUint64(item[1]).Ok? && StringToUint64(item[8]).Ok? && StringToUint64(item[2]).Ok?
      && StringToFloat64(item[3]).Ok? && StringToFloat64(item[6]).Ok?
      && StringToFloat64(item[4]).Ok? && StringToFloat64(item[5]).Ok?)
    ensures r.Ok? ==> (|item| >= 9 && r.value.code == code
      && DeserializeString(body, "stkName") == Ok(r.value.name)
      && StringToDate(item[0]) == Ok(r.value.date)
      && StringToUint64(item[1]).Ok? && r.value.volume == Times1000(StringToUint64(item[1]).value)
      && StringToUint64(item[2]).Ok? && r.value.value == Times1000(StringToUint64(item[2]).value)
      && StringToUint64(item[8]) == Ok(r.value.transactions)
      && StringToFloat64(item[3]) == Ok(r.value.open)
      && StringToFloat64(item[4]) == Ok(r.value.high)
      && StringToFloat64(item[5]) == Ok(r.value.low)
      && StringToFloat64(item[6]) == Ok(r.value.close))
  {
    var name :- DeserializeString(body, "stkName");
    var rawDate :- At(item, 0);
    var date :- StringToDate(rawDate);
    var volume :- Uint64At(item, 1);
    var transactions :- Uint64At(item, 8);
    var value :- Uint64At(item, 2);
    var open :- Float64At(item, 3);
    var close :- Float64At(item, 6);
    var high :- Float64At(item, 4);
    var low :- Float64At(item, 5);
    Ok(Quote(code, name, date, Times1000(volume), transactions, Times1000(value),
      high, low, open, close, ZeroTime, ZeroTime))
  }

  /** `convertRawMonthlyQuote`: a CSV record of one stock's year, one per
      month: year and month at columns 0 and 1 (the date is the first of
      that month), high and low at 2 and 3, transactions unscaled at 5,
      value and volume in thousands at 6 and 7. */
  function ConvertRawMonthlyQuote(code: string, raw: seq<string>): (r: Result<Quote, string>)
    ensures r.Ok? ==> (|raw| >= 8 && r.value.code == code && r.value.name == ""
      && Atoi(raw[0]) == Some(r.value.date.year) && Atoi(raw[1]) == Some(r.value.date.month)
      && r.value.date.day == 1
      && ParseDecimal(raw[2]) == Some(r.value.high) && ParseDecimal(raw[3]) == Some(r.value.low)
      && ParseUint(RemoveAll(raw[5], ',')) == Some(r.value.transactions)
      && ParseUint(RemoveAll(raw[6], ',')).Some?
      && r.value.value == Times1000(ParseUint(RemoveAll(raw[6], ',')).value)
      && ParseUint(RemoveAll(raw[7], ',')).Some?
      && r.value.volume == Times1000(ParseUint(RemoveAll(raw[7], ',')).value)
      && r.value.open == Zero && r.value.close == Zero)
    ensures |raw| < 8 ==> r.Err?
  {
    var year :- IntAt(raw, 0, "year");
    var month :- IntAt(raw, 1, "year");
    var high :- PriceAt(raw, 2, "high");
    var low :- PriceAt(raw, 3, "low");
    var transactions :- CountAt(raw, 5, "transactions");
    var value :- CountAt(raw, 6, "value");
    var volume :- CountAt(raw, 7, "volume");
    Ok(Quote(code, "", Date(year, month, 1), Times1000(volume), transactions, Times1000(value),
      high, low, Zero, Zero, ZeroTime, ZeroTime))
  }

  /** `convertRawYearlyQuote`: a CSV record of one stock's history, one per
      year: the year at column 0 (the date is its first of January), volume,
      value and transactions in thousands at 1 to 3, the high and the
      two-digit month and day of the high at 4 and 5, the low and its day at
      6 and 7. The days of the high and the low lie in the row's year. */
  function ConvertRawYearlyQuote(code: string, raw: seq<string>): (r: Result<Quote, string>)
    ensures r.Ok? ==> (|raw| >= 8 && r.value.code == code && r.value.name == ""
      && Atoi(raw[0]) == Some(r.value.date.year) && r.value.date.month == 1 && r.value.date.day == 1
      && ParseUint(RemoveAll(raw[1], ',')).Some?
      && r.value.volume == Times1000(ParseUint(RemoveAll(raw[1], ',')).value)
      && ParseUint(RemoveAll(raw[2], ',')).Some?
      && r.value.value == Times1000(ParseUint(RemoveAll(raw[2], ',')).value)
      && ParseUint(RemoveAll(raw[3], ',')).Some?
      && r.value.transactions == Times1000(ParseUint(RemoveAll(raw[3], ',')).value)
      && ParseDecimal(raw[4]) == Some(r.value.high) && ParseDecimal(raw[6]) == Some(r.value.low)
      && r.value.dateOfHigh.year == r.value.date.year && r.value.dateOfLow.year == r.value.date.year
      && ParseMonthDay(raw[5]) == Some(Date(0, r.value.dateOfHigh.month, r.value.dateOfHigh.day))
      && ParseMonthDay(raw[7]) == Some(Date(0, r.value.dateOfLow.month, r.value.dateOfLow.day))
      && r.value.open == Zero && r.value.close == Zero)
    ensures |raw| < 8 ==> r.Err?
  {
    var year :- IntAt(raw, 0, "year");
    var volume :- CountAt(raw, 1, "volume");
    var value :- CountAt(raw, 2, "value");
    var transactions :- CountAt(raw, 3, "transactions");
    var high :- PriceAt(raw, 4, "high");
    var dateOfHigh :- MonthDayAt(raw, 5, "date of high");
    var low :- PriceAt(raw, 6, "low");
    var dateOfLow :- MonthDayAt(raw, 7, "date of low");
    Ok(Quote(code, "", Date(year, 1, 1), Times1000(volume), Times1000(transactions), Times1000(value),
      high, low, Zero, Zero, Date(year, dateOfHigh.month, dateOfHigh.day), Date(year, dateOfLow.month, dateOfLow.day)))
  }

  // ---------------------------------------------------------------------
  // The four fetches

  /** Which decoder the rows of a fetch go through. */
  datatype Kind =
    | Day(date: Date)
    | Daily(code: string, body: map<string, Json>)
    | Monthly(code: string)
    | Yearly(code: string)

  function Convert(kind: Kind, item: seq<string>): Result<Quote, string>
  {
    match kind
    case Day(date) => DayQuote(item, date)
    case Daily(code, body) => DailyQuote(body, item, code)
    case Monthly(code) => ConvertRawMonthlyQuote(code, item)
    case Yearly(code) => ConvertRawYearlyQuote(code, item)
  }

  /** The decoder of the rows of `kind`. */
  function Decoder(kind: Kind): seq<string> -> Result<Quote, string>
  {
    item => Convert(kind, item)
  }

  /** What `FetchDayQuotes` returns for a decoded body. */
  function DayQuotes(body: map<string, Json>, date: Date): Result<map<string, Quote>, string>
  {
    var quotes :- DayList(body, date);
    Ok(KeyByCode(quotes))
  }

  /** The rows of the day report, decoded in order. */
  function DayList(body: map<string, Json>, date: Date): Result<seq<Quote>, string>
  {
    var items :- DeserializeSliceOfSlicesOfStrings(body, "aaData");
    ConvertAll(Decoder(Day(date)), items)
  }

  /** What `FetchDailyQuotes` returns for a decoded body. */
  function DailyQuotes(body: map<string, Json>, code: string): Result<seq<Quote>, string>
  {
    var items :- DeserializeSliceOfSlicesOfStrings(body, "aaData");
    ConvertAll(Decoder(Daily(code, body)), items)
  }

  /** `FetchDayQuotes` after the fetch: each row is stored under its code. */
  method FetchDayQuotes(body: map<string, Json>, date: Date) returns (r: Result<map<string, Quote>, string>)
    ensures r == DayQuotes(body, date)
  {
    var deserialized := DeserializeSliceOfSlicesOfStrings(body, "aaData");
    if deserialized.Err? {
      return Err(deserialized.error);
    }
    var items := deserialized.value;
    var qs: map<string, Quote> := map[];
    ghost var converted: seq<Quote> := [];
    var i := 0;
    while i < |items|
      invariant 0 <= i <= |items|
      invariant ConvertAll(Decoder(Day(date)), items[..i]) == Ok(converted)
      invariant qs == KeyByCode(converted)
    {
      var q := DayQuote(items[i], date);
      ConvertAllStep(Decoder(Day(date)), items, i);
      if q.Err? {
        ConvertAllPrefixErr(Decoder(Day(date)), items, i + 1);
        return Err(q.error);
      }
      KeyByCodeSnoc(converted, q.value);
      converted := converted + [q.value];
      qs := qs[q.value.code := q.value];
      i := i + 1;
    }
    assert items[..i] == items;
    return Ok(qs);
  }

  /** The loop of the three list fetches: decode each row in order and
      append it. */
  method AppendQuotes(kind: Kind, items: seq<seq<string>>) returns (r: Result<seq<Quote>, string>)
    ensures r == ConvertAll(Decoder(kind), items)
  {
    var decode := Decoder(kind);
    var qs: seq<Quote> := [];
    var i := 0;
    while i < |items|
      invariant 0 <= i <= |items|
      invariant ConvertAll(decode, items[..i]) == Ok(qs)
    {
      var q := decode(items[i]);
      ConvertAllStep(decode, items, i);
      if q.Err? {
        ConvertAllPrefixErr(decode, items, i + 1);
        return Err(q.error);
      }
      qs := qs + [q.value];
      i := i + 1;
    }
    assert items[..i] == items;
    return Ok(qs);
  }

  /** `FetchDailyQuotes` after the fetch. */
  method FetchDailyQuotes(body: map<string, Json>, code: string) returns (r: Result<seq<Quote>, string>)
    ensures r == DailyQuotes(body, code)
  {
    var deserialized := DeserializeSliceOfSlicesOfStrings(body, "aaData");
    if deserialized.Err? {
      return Err(deserialized.error);
    }
    r := AppendQuotes(Daily(code, body), deserialized.value);
  }

  /** `FetchMonthlyQuotes` after the CSV reader. */
  method FetchMonthlyQuotes(code: string, records: seq<seq<string>>) returns (r: Result<seq<Quote>, string>)
    ensures r == ConvertAll(Decoder(Monthly(code)), records)
  {
    r := AppendQuotes(Monthly(code), records);
  }

  /** `FetchYearlyQuotes` after the CSV reader. */
  method FetchYearlyQuotes(code: string, records: seq<seq<string>>) returns (r: Result<seq<Quote>, string>)
    ensures r == ConvertAll(Decoder(Yearly(code)), records)
  {
    r := AppendQuotes(Yearly(code), records);
  }

  // ---------------------------------------------------------------------
  // Filtering the CSV download

  /** The lines before the first line without an ASCII letter are dropped. */
  function DropLettered(lines: seq<string>): seq<string>
  {
    if |lines| == 0 then []
    else if HasAsciiLetter(lines[0]) then DropLettered(lines[1..])
    else lines
  }

  /** The lines up to the first one with an ASCII letter. */
  function TakeClean(lines: seq<string>): seq<string>
  {
    if |lines| == 0 || HasAsciiLetter(lines[0]) then []
    else [lines[0]] + TakeClean(lines[1..])
  }

  lemma {:induction false} DropLetteredStep(lines: seq<string>, i: nat)
    requires i < |lines|
    ensures HasAsciiLetter(lines[i]) ==> DropLettered(lines[i..]) == DropLettered(lines[i + 1..])
    ensures !HasAsciiLetter(lines[i]) ==> DropLettered(lines[i..]) == lines[i..]
  {
    assert lines[i..][0] == lines[i] && lines[i..][1..] == lines[i + 1..];
  }

  lemma {:induction false} TakeCleanStep(lines: seq<string>, i: nat)
    requires i < |lines|
    ensures HasAsciiLetter(lines[i]) ==> TakeClean(lines[i..]) == []
    ensures !HasAsciiLetter(lines[i]) ==> TakeClean(lines[i..]) == [lines[i]] + TakeClean(lines[i + 1..])
  {
    assert lines[i..][0] == lines[i] && lines[i..][1..] == lines[i + 1..];
  }

  /** The data lines: the first run of lines without an ASCII letter. */
  function DataLines(lines: seq<string>): seq<string>
  {
    TakeClean(DropLettered(lines))
  }

  /** What `filterOutInvalidLines` returns. */
  function Filtered(text: string): string
  {
    Join(DataLines(Split(text, '\n')), '\n')
  }

  /** `filterOutInvalidLines`: split the download into lines, keep the
      data lines, join them again. */
  method FilterOutInvalidLines(text: string) returns (r: string)
    ensures r == Filtered(text)
  {
    var dataLines := CollectDataLines(Split(text, '\n'));
    r := Join(dataLines, '\n');
  }

  /** The loop of `filterOutInvalidLines`: skip lettered lines until the
      first clean one, collect clean lines, stop at the next lettered one. */
  method CollectDataLines(lines: seq<string>) returns (dataLines: seq<string>)
    ensures dataLines == DataLines(lines)
  {
    dataLines := [];
    var isInAddingDataLineStage := false;
    var i := 0;
    while i < |lines|
      invariant 0 <= i <= |lines|
      invariant FilterState(lines, i, isInAddingDataLineStage, dataLines)
    {
      var line := lines[i];
      var isMatched := HasAsciiLetter(line);
      FilterStep(lines, i, isInAddingDataLineStage, dataLines);
      if !isInAddingDataLineStage {
        if isMatched {
          i := i + 1;
          continue;
        }
        isInAddingDataLineStage := true;
      } else if isMatched {
        return;
      }
      dataLines := dataLines + [line];
      i := i + 1;
    }
    FilterEnd(lines, isInAddingDataLineStage, dataLines);
  }

  /** What the loop knows after the first `i` lines: before collection has
      begun every line so far was lettered; once it has, the data lines are
      those collected followed by the clean lines from `i` on. */
  predicate FilterState(lines: seq<string>, i: nat, adding: bool, dataLines: seq<string>)
    requires i <= |lines|
  {
    if adding then DataLines(lines) == dataLines + TakeClean(lines[i..])
    else dataLines == [] && DropLettered(lines) == DropLettered(lines[i..])
  }

  /** One line through the loop: skipped, collected, or the end. */
  lemma {:induction false} FilterStep(lines: seq<string>, i: nat, adding: bool, dataLines: seq<string>)
    requires i < |lines| && FilterState(lines, i, adding, dataLines)
    ensures !adding && HasAsciiLetter(lines[i]) ==> FilterState(lines, i + 1, false, dataLines)
    ensures !HasAsciiLetter(lines[i]) ==> FilterState(lines, i + 1, true, dataLines + [lines[i]])
    ensures adding && HasAsciiLetter(lines[i]) ==> DataLines(lines) == dataLines
  {
    if adding {
      TakeCleanStep(lines, i);
      if HasAsciiLetter(lines[i]) {
        assert dataLines + [] == dataLines;
      } else {
        assert dataLines + TakeClean(lines[i..]) == (dataLines + [lines[i]]) + TakeClean(lines[i + 1..]);
      }
    } else {
      DropLetteredStep(lines, i);
      if !HasAsciiLetter(lines[i]) {
        TakeCleanStep(lines, i);
        assert DataLines(lines) == [lines[i]] + TakeClean(lines[i + 1..]);
        assert dataLines + [lines[i]] == [lines[i]];
      }
    }
  }

  /** Past the last line the collected lines are the data lines. */
  lemma {:induction false} FilterEnd(lines: seq<string>, adding: bool, dataLines: seq<string>)
    requires FilterState(lines, |lines|, adding, dataLines)
    ensures dataLines == DataLines(lines)
  {
    assert lines[|lines|..] == [];
    assert dataLines + [] == dataLines;
  }

  // ---------------------------------------------------------------------
  // Properties of the line filter

  /** What is left after the lettered lines: a suffix of the input that is
      empty or starts with a clean line, and every line cut off is lettered. */
  lemma {:induction false} DropLetteredSkipsLettered(lines: seq<string>)
    ensures var r := DropLettered(lines);
      |r| <= |lines| && r == lines[|lines| - |r|..]
      && (|r| > 0 ==> !HasAsciiLetter(r[0]))
      && (forall k :: 0 <= k < |lines| - |r| ==> HasAsciiLetter(lines[k]))
  {
    if |lines| > 0 && HasAsciiLetter(lines[0]) {
      DropLetteredSkipsLettered(lines[1..]);
      var r := DropLettered(lines);
      assert lines[1..][|lines| - 1 - |r|..] == lines[|lines| - |r|..];
      forall k | 0 < k < |lines| - |r| ensures HasAsciiLetter(lines[k]) {
        assert lines[k] == lines[1..][k - 1];
      }
    }
  }

  /** The clean lines taken: a prefix of the input with no lettered line,
      followed by a lettered line if anything follows. */
  lemma {:induction false} TakeCleanIsClean(lines: seq<string>)
    ensures var r := TakeClean(lines);
      |r| <= |lines| && r == lines[..|r|]
      && (|r| < |lines| ==> HasAsciiLetter(lines[|r|]))
      && (forall k :: 0 <= k < |r| ==> !HasAsciiLetter(lines[k]))
  {
    if |lines| > 0 && !HasAsciiLetter(lines[0]) {
      TakeCleanIsClean(lines[1..]);
      var r := TakeClean(lines);
      assert r == [lines[0]] + TakeClean(lines[1..]);
      assert r == lines[..|r|];
      if |r| < |lines| {
        assert lines[|r|] == lines[1..][|r| - 1];
      }
      forall k | 0 < k < |r| ensures !HasAsciiLetter(lines[k]) {
        assert lines[k] == lines[1..][k - 1];
      }
    }
  }

  /** The data lines are one contiguous run `lines[n..n + m]`: every line
      before it has a letter, no line in it has one, and the line after it,
      if any, has one. Nothing is collected only when every line has a
      letter. */
  lemma {:induction false} DataLinesAreARun(lines: seq<string>)
    ensures var n := |lines| - |DropLettered(lines)|;
      var m := |DataLines(lines)|;
      0 <= n && n + m <= |lines| && DataLines(lines) == lines[n..n + m]
      && (forall k :: 0 <= k < n ==> HasAsciiLetter(lines[k]))
      && (forall k :: n <= k < n + m ==> !HasAsciiLetter(lines[k]))
      && (n + m < |lines| ==> HasAsciiLetter(lines[n + m]))
      && (m == 0 <==> forall k :: 0 <= k < |lines| ==> HasAsciiLetter(lines[k]))
  {
    var rest := DropLettered(lines);
    var n := |lines| - |rest|;
    var data := TakeClean(rest);
    DropLetteredSkipsLettered(lines);
    TakeCleanIsClean(rest);
    assert rest == lines[n..];
    assert data == rest[..|data|];
    assert data == lines[n..n + |data|];
    forall k | n <= k < n + |data| ensures !HasAsciiLetter(lines[k]) {
      assert lines[k] == rest[k - n];
    }
    if n + |data| < |lines| {
      assert lines[n + |data|] == rest[|data|];
    }
  }

  /** Conversely, a run of clean lines between lettered header lines and a
      footer that starts with a lettered line is exactly what is kept. */
  lemma {:induction false} DataLinesOfRun(header: seq<string>, data: seq<string>, footer: seq<string>)
    requires forall k :: 0 <= k < |header| ==> HasAsciiLetter(header[k])
    requires forall k :: 0 <= k < |data| ==> !HasAsciiLetter(data[k])
    requires footer == [] || (|data| > 0 && HasAsciiLetter(footer[0]))
    ensures DataLines(header + data + footer) == data
  {
    var lines := header + data + footer;
    if |header| > 0 {
      assert lines[0] == header[0];
      assert lines[1..] == header[1..] + data + footer;
      DataLinesOfRun(header[1..], data, footer);
    } else if |data| > 0 {
      assert lines == data + footer;
      assert lines[0] == data[0];
      TakeCleanOfRun(data, footer);
    } else {
      assert lines == [];
    }
  }

  lemma {:induction false} TakeCleanOfRun(data: seq<string>, footer: seq<string>)
    requires forall k :: 0 <= k < |data| ==> !HasAsciiLetter(data[k])
    requires footer == [] || HasAsciiLetter(footer[0])
    ensures TakeClean(data + footer) == data
  {
    if |data| > 0 {
      assert (data + footer)[0] == data[0];
      assert (data + footer)[1..] == data[1..] + footer;
      TakeCleanOfRun(data[1..], footer);
    } else {
      assert data + footer == footer;
    }
  }

  /** No line of the result has an ASCII letter, so neither has the result. */
  lemma {:induction false} FilteredHasNoLetter(text: string)
    ensures !HasAsciiLetter(Filtered(text))
  {
    var lines := Split(text, '\n');
    var data := DataLines(lines);
    DataLinesAreARun(lines);
    var n := |lines| - |DropLettered(lines)|;
    forall k | 0 <= k < |data| ensures !HasAsciiLetter(data[k]) {
      assert data[k] == lines[n + k];
    }
    JoinHasNoLetter(data, '\n');
  }

  /** A download whose every line has a letter filters to nothing. */
  lemma {:induction false} FilteredAllLettered(text: string)
    requires forall k :: 0 <= k < |Split(text, '\n')| ==> HasAsciiLetter(Split(text, '\n')[k])
    ensures Filtered(text) == ""
  {
    DataLinesAreARun(Split(text, '\n'));
  }

  /** A download laid out as lettered header lines, clean data lines and a
      footer starting with a lettered line filters to the data lines joined
      by newlines. */
  lemma {:induction false} FilteredOfDownload(header: seq<string>, data: seq<string>, footer: seq<string>)
    requires forall k :: 0 <= k < |header| ==> HasAsciiLetter(header[k]) && '\n' !in header[k]
    requires forall k :: 0 <= k < |data| ==> !HasAsciiLetter(data[k]) && '\n' !in data[k]
    requires forall k :: 0 <= k < |footer| ==> '\n' !in footer[k]
    requires footer == [] || (|data| > 0 && HasAsciiLetter(footer[0]))
    ensures Filtered(Join(header + data + footer, '\n')) == Join(data, '\n')
  {
    var lines := header + data + footer;
    if |lines| == 0 {
      assert data == [];
      assert Split("", '\n') == [""];
      assert !HasAsciiLetter("");
    } else {
      forall k | 0 <= k < |lines| ensures '\n' !in lines[k] {
        if k < |header| {
          assert lines[k] == header[k];
        } else if k < |header| + |data| {
          assert lines[k] == data[k - |header|];
        } else {
          assert lines[k] == footer[k - |header| - |data|];
        }
      }
      SplitJoin(lines, '\n');
      DataLinesOfRun(header, data, footer);
    }
  }

  // ---------------------------------------------------------------------
  // Properties of the row decoders and the fetches

  /** Conversely, a monthly record whose cells all read decodes to exactly
      those values: value and volume scaled by 1000, transactions unscaled,
      the first of the month as date. */
  lemma {:induction false} MonthlyQuoteOfRecord(code: string, raw: seq<string>, year: int, month: int,
                                                 high: Decimal, low: Decimal, transactions: U64, value: U64, volume: U64)
    requires |raw| >= 8
    requires Atoi(raw[0]) == Some(year) && Atoi(raw[1]) == Some(month)
    requires ParseDecimal(raw[2]) == Some(high) && ParseDecimal(raw[3]) == Some(low)
    requires ParseUint(RemoveAll(raw[5], ',')) == Some(transactions)
    requires ParseUint(RemoveAll(raw[6], ',')) == Some(value) && ParseUint(RemoveAll(raw[7], ',')) == Some(volume)
    ensures ConvertRawMonthlyQuote(code, raw)
      == Ok(Quote(code, "", Date(year, month, 1), Times1000(volume), transactions, Times1000(value),
           high, low, Zero, Zero, ZeroTime, ZeroTime))
  {
    assert IntAt(raw, 0, "year") == Ok(year) && IntAt(raw, 1, "year") == Ok(month);
    assert PriceAt(raw, 2, "high") == Ok(high) && PriceAt(raw, 3, "low") == Ok(low);
    assert CountAt(raw, 5, "transactions") == Ok(transactions);
    assert CountAt(raw, 6, "value") == Ok(value) && CountAt(raw, 7, "volume") == Ok(volume);
  }

  /** Conversely, a yearly record whose cells all read decodes to exactly
      those values: volume, value and transactions all scaled by 1000, the
      first of January as date, and the days of the high and the low placed
      in the record's year. */
  lemma {:induction false} YearlyQuoteOfRecord(code: string, raw: seq<string>, year: int, volume: U64, value: U64,
                                                transactions: U64, high: Decimal, highDay: Date, low: Decimal, lowDay: Date)
    requires |raw| >= 8
    requires Atoi(raw[0]) == Some(year)
    requires ParseUint(RemoveAll(raw[1], ',')) == Some(volume) && ParseUint(RemoveAll(raw[2], ',')) == Some(value)
    requires ParseUint(RemoveAll(raw[3], ',')) == Some(transactions)
    requires ParseDecimal(raw[4]) == Some(high) && ParseMonthDay(raw[5]) == Some(highDay)
    requires ParseDecimal(raw[6]) == Some(low) && ParseMonthDay(raw[7]) == Some(lowDay)
    ensures ConvertRawYearlyQuote(code, raw)
      == Ok(Quote(code, "", Date(year, 1, 1), Times1000(volume), Times1000(transactions), Times1000(value),
           high, low, Zero, Zero, Date(year, highDay.month, highDay.day), Date(year, lowDay.month, lowDay.day)))
  {
    assert IntAt(raw, 0, "year") == Ok(year);
    assert CountAt(raw, 1, "volume") == Ok(volume) && CountAt(raw, 2, "value") == Ok(value);
    assert CountAt(raw, 3, "transactions") == Ok(transactions);
    assert PriceAt(raw, 4, "high") == Ok(high) && MonthDayAt(raw, 5, "date of high") == Ok(highDay);
    assert PriceAt(raw, 6, "low") == Ok(low) && MonthDayAt(raw, 7, "date of low") == Ok(lowDay);
  }

  /** The day map: every key is the code of its quote, every quote is one of
      the decoded rows and carries the query date, the keys are exactly the
      decoded codes, and a code maps to the last row that has it. */
  lemma {:induction false} DayQuotesKeyed(body: map<string, Json>, date: Date, i: nat)
    requires DayQuotes(body, date).Ok?
    ensures DayList(body, date).Ok?
    ensures var m := DayQuotes(body, date).value;
      var quotes := DayList(body, date).value;
      (forall code :: code in m ==> m[code].code == code && m[code].date == date && m[code] in quotes)
      && m.Keys == (set k | 0 <= k < |quotes| :: quotes[k].code)
      && (i < |quotes| && (forall j :: i < j < |quotes| ==> quotes[j].code != quotes[i].code) ==>
          quotes[i].code in m && m[quotes[i].code] == quotes[i])
  {
    var quotes := DayList(body, date).value;
    var m := DayQuotes(body, date).value;
    assert m == KeyByCode(quotes);
    KeyByCodeKeys(quotes);
    if i < |quotes| && (forall j :: i < j < |quotes| ==> quotes[j].code != quotes[i].code) {
      KeyByCodeLastWins(quotes, i);
    }
    DayListDates(body, date);
  }

  /** Every row of the day report carries the query date. */
  lemma {:induction false} DayListDates(body: map<string, Json>, date: Date)
    requires DayList(body, date).Ok?
    ensures forall k :: 0 <= k < |DayList(body, date).value| ==> DayList(body, date).value[k].date == date
  {
    var items := DeserializeSliceOfSlicesOfStrings(body, "aaData").value;
    var quotes := ConvertAll(Decoder(Day(date)), items).value;
    forall k | 0 <= k < |quotes| ensures quotes[k].date == date {
      assert Convert(Day(date), items[k]) == Ok(quotes[k]);
    }
  }

  /** The list fetches give one quote per row, in row order, each with the
      query code; the monthly and yearly ones leave the name empty. */
  lemma {:induction false} ListQuotesMatchQuery(kind: Kind, items: seq<seq<string>>, i: nat)
    requires !kind.Day? && ConvertAll(Decoder(kind), items).Ok? && i < |items|
    ensures |ConvertAll(Decoder(kind), items).value| == |items|
    ensures Convert(kind, items[i]) == Ok(ConvertAll(Decoder(kind), items).value[i])
    ensures ConvertAll(Decoder(kind), items).value[i].code == kind.code
    ensures !kind.Daily? ==> ConvertAll(Decoder(kind), items).value[i].name == ""
  {
    assert Convert(kind, items[i]) == Ok(ConvertAll(Decoder(kind), items).value[i]);
  }
}

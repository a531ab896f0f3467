/** The TWSE client after the network: classifying a response, decoding the
    rows of the four endpoints into quotes, and the post-fetch logic of the
    four public `Fetch*` calls. */
module Twse {
  import opened Wrappers
  import opened GoStrings
  import opened GoStrconv
  import opened GoTime
  import opened JsonValue
  import opened Quotes
  import opened TwseErrors
  import opened TwseUtil
  import opened Rows

  // ---------------------------------------------------------------------
  // Classifying a response

  /** What the HTTP call hands back, once the media type is parsed and the
      body decoded: a transport error (and whether it wraps `io.EOF`), or a
      response with its media type and decoded body. */
  datatype Response =
    | TransportFailed(wrapsEOF: bool, reason: string)
    | Received(mediaType: string, body: RawData)

  const JsonMediaType := "application/json"

  /** `fetch` after `Do`: EOF means the server dropped the connection
      (throttling), other transport errors are connection errors, a non-JSON
      page means throttling, and a decoded body must carry stat "OK". */
  function Fetch(resp: Response): (r: Result<RawData, Error>)
    ensures r.Ok? <==> resp.Received? && resp.mediaType == JsonMediaType && IsStatOK(resp.body) == Ok(true)
    ensures r.Ok? ==> r.value == resp.body
    ensures r.Err? && r.error.QuotaExceeded? <==>
      (resp.TransportFailed? && resp.wrapsEOF) || (resp.Received? && resp.mediaType != JsonMediaType)
    ensures r.Err? && r.error.ConnectionError? <==> resp.TransportFailed? && !resp.wrapsEOF
    ensures r.Err? && r.error.NoData? <==>
      resp.Received? && resp.mediaType == JsonMediaType && IsStatOK(resp.body) == Ok(false)
    ensures r.Err? && r.error.Failed? <==>
      resp.Received? && resp.mediaType == JsonMediaType && IsStatOK(resp.body).Err?
    ensures r.Err? ==> !r.error.Panicked?
  {
    match resp
    case TransportFailed(wrapsEOF, reason) =>
      if wrapsEOF then Err(QuotaExceeded("empty reply from server"))
      else Err(ConnectionError("failed to query: " + reason))
    case Received(mediaType, body) =>
      if mediaType != JsonMediaType then
        Err(QuotaExceeded("received unexpected content type '" + mediaType + "'"))
      else
        var ok :- IsStatOK(body);
        if ok then Ok(body)
        else
          var stat := ToString(body["stat"]).value;
          Err(NoData("expected stat 'OK' but got '" + stat + "'"))
  }

  /** The media type is checked before the body is looked at: a non-JSON
      response is a quota error whatever its body. */
  lemma {:induction false} MediaTypeBeforeBody(mediaType: string, body1: RawData, body2: RawData)
    requires mediaType != JsonMediaType
    ensures Fetch(Received(mediaType, body1)) == Fetch(Received(mediaType, body2))
    ensures Fetch(Received(mediaType, body1)) == Err(QuotaExceeded("received unexpected content type '" + mediaType + "'"))
  {
  }

  /** A JSON body passes exactly when its stat is the string "OK", and then
      it is returned as it is; any other stat string means no data. */
  lemma {:induction false} StatDecides(body: RawData, stat: string)
    requires "stat" in body && body["stat"] == JStr(stat)
    ensures stat == "OK" ==> Fetch(Received(JsonMediaType, body)) == Ok(body)
    ensures stat != "OK" ==> Fetch(Received(JsonMediaType, body)) == Err(NoData("expected stat 'OK' but got '" + stat + "'"))
  {
  }

  // ---------------------------------------------------------------------
  // Header labels

  /** The header labels the decoders read. (The exchange's headers are
      Chinese; a label reused by one endpoint is read through its suffixed
      name.) */
  const CodeLabel := "證券代號"
  const NameLabel := "證券名稱"
  const VolumeLabel := "成交股數"
  const TransactionsLabel := "成交筆數"
  const ValueLabel := "成交金額"
  const OpenLabel := "開盤價"
  const HighLabel := "最高價"
  const LowLabel := "最低價"
  const CloseLabel := "收盤價"
  const DateLabel := "日期"
  const MonthLabel := "月份"
  const MonthlyVolumeLabel := "成交股數(B)"
  const MonthlyValueLabel := "成交金額(A)"
  const YearLabel := "年度"
  /** The yearly header names the day of the high and the day of the low
      with the same label; the second one is renamed by the suffixing. */
  const DateOfLowLabel := DateLabel + "2"

  /** The first occurrence of the date label keeps its name and is read as
      the day of the high; the second becomes the low-date label. */
  lemma {:induction false} SuffixedDateLabels(fields: seq<string>, i: nat, j: nat)
    requires i < j < |fields| && fields[i] == DateLabel && fields[j] == DateLabel
    requires Count(fields[..i], DateLabel) == 0 && Count(fields[..j], DateLabel) == 1
    ensures Suffixed(fields)[i] == DateLabel
    ensures Suffixed(fields)[j] == DateOfLowLabel
  {
    SuffixedIndex(fields);
    assert FormatInt(2) == "2";
  }

  // ---------------------------------------------------------------------
  // Row decoders

  /** `convertRawQuote`: the three counts and the four prices of a row. */
  function ConvertRawQuote(rec: Record): (r: Result<Quote, Error>)
    ensures r.Ok? <==> (ConvertToStringThenUint64(rec, VolumeLabel).Ok?
      && ConvertToStringThenUint64(rec, TransactionsLabel).Ok?
      && ConvertToStringThenUint64(rec, ValueLabel).Ok?
      && ConvertToStringThenFloat64(rec, OpenLabel).Ok?
      && ConvertToStringThenFloat64(rec, HighLabel).Ok?
      && ConvertToStringThenFloat64(rec, LowLabel).Ok?
      && ConvertToStringThenFloat64(rec, CloseLabel).Ok?)
    ensures r.Ok? ==> (ConvertToStringThenUint64(rec, VolumeLabel) == Ok(r.value.volume)
      && ConvertToStringThenUint64(rec, TransactionsLabel) == Ok(r.value.transactions)
      && ConvertToStringThenUint64(rec, ValueLabel) == Ok(r.value.value)
      && ConvertToStringThenFloat64(rec, OpenLabel) == Ok(r.value.open)
      && ConvertToStringThenFloat64(rec, HighLabel) == Ok(r.value.high)
      && ConvertToStringThenFloat64(rec, LowLabel) == Ok(r.value.low)
      && ConvertToStringThenFloat64(rec, CloseLabel) == Ok(r.value.close))
    ensures r.Ok? ==> (r.value.code == "" && r.value.name == "" && r.value.date == ZeroTime
      && r.value.dateOfHigh == ZeroTime && r.value.dateOfLow == ZeroTime)
    ensures r.Err? ==> r.error.Failed?
  {
    var volume :- ConvertToStringThenUint64(rec, VolumeLabel);
    var transactions :- ConvertToStringThenUint64(rec, TransactionsLabel);
    var value :- ConvertToStringThenUint64(rec, ValueLabel);
    var open :- ConvertToStringThenFloat64(rec, OpenLabel);
    var high :- ConvertToStringThenFloat64(rec, HighLabel);
    var low :- ConvertToStringThenFloat64(rec, LowLabel);
    var close :- ConvertToStringThenFloat64(rec, CloseLabel);
    Ok(EmptyQuote.(volume := volume, transactions := transactions, value := value,
      open := open, high := high, low := low, close := close))
  }

  /** `convertRawDayQuote`: a row of the all-stocks day report, dated with
      the query date. */
  function ConvertRawDayQuote(rec: Record, date: Date): (r: Result<Quote, Error>)
    ensures r.Ok? <==> (ConvertRawQuote(rec).Ok?
      && ConvertToString(rec, CodeLabel).Ok? && ConvertToString(rec, NameLabel).Ok?)
    ensures r.Ok? ==> r.value == ConvertRawQuote(rec).value.(
      code := rec[CodeLabel].s, name := rec[NameLabel].s, date := date)
    ensures r.Err? ==> r.error.Failed?
  {
    var q :- ConvertRawQuote(rec);
    var code :- ConvertToString(rec, CodeLabel);
    var name :- ConvertToString(rec, NameLabel);
    Ok(q.(code := code, name := name, date := date))
  }

  /** `convertRawDailyQuote`: a row of one stock's month. The row's date
      must have three '/'-separated parts; only the day is read from it, and
      the year and month are those of the query. */
  function ConvertRawDailyQuote(rec: Record, code: string, year: int, month: int): (r: Result<Quote, Error>)
    ensures r.Ok? <==> (ConvertToString(rec, DateLabel).Ok? && |Split(rec[DateLabel].s, '/')| == 3
      && ParseInt(Split(rec[DateLabel].s, '/')[2], 32).Some? && ConvertRawQuote(rec).Ok?)
    ensures r.Ok? ==> (ConvertToString(rec, DateLabel).Ok? && |Split(rec[DateLabel].s, '/')| == 3
      && ParseInt(Split(rec[DateLabel].s, '/')[2], 32) == Some(r.value.date.day))
    ensures r.Ok? ==> (r.value.code == code && r.value.name == ""
      && r.value.date.year == year && r.value.date.month == month
      && ConvertRawQuote(rec).Ok? && r.value == ConvertRawQuote(rec).value.(code := code, date := r.value.date))
    ensures (ConvertToString(rec, DateLabel).Ok? && |Split(rec[DateLabel].s, '/')| != 3) ==> r.Err? && r.error.Panicked?
  {
    var rawDate :- ConvertToString(rec, DateLabel);
    var parts := Split(rawDate, '/');
    if |parts| != 3 then Err(Panicked("'" + rawDate + "' is ill-formatted"))
    else
      match ParseInt(parts[2], 32)
      case None => Err(Panicked("ill-formatted date '" + rawDate + "'"))
      case Some(day) =>
        var q :- ConvertRawQuote(rec);
        Ok(q.(code := code, date := Date(year, month, day)))
  }

  /** `convertRawMonthlyQuote`: a row of one stock's year, one per month.
      The month is read as a number, printed with `%02d` and parsed with the
      "01" layout; the date is the first of that month of the query year. */
  function ConvertRawMonthlyQuote(rec: Record, code: string, year: int): (r: Result<Quote, Error>)
    ensures r.Ok? <==> (ConvertToFloat64(rec, MonthLabel).Ok? && 1 <= rec[MonthLabel].n <= 12
      && ConvertToStringThenUint64(rec, MonthlyVolumeLabel).Ok?
      && ConvertToStringThenUint64(rec, TransactionsLabel).Ok?
      && ConvertToStringThenUint64(rec, MonthlyValueLabel).Ok?
      && ConvertToStringThenFloat64(rec, HighLabel).Ok?
      && ConvertToStringThenFloat64(rec, LowLabel).Ok?)
    ensures r.Ok? ==> (ConvertToFloat64(rec, MonthLabel).Ok?
      && r.value.date == Date(year, rec[MonthLabel].n, 1) && 1 <= r.value.date.month <= 12)
    ensures r.Ok? ==> (r.value.code == code && r.value.name == ""
      && ConvertToStringThenUint64(rec, MonthlyVolumeLabel) == Ok(r.value.volume)
      && ConvertToStringThenUint64(rec, TransactionsLabel) == Ok(r.value.transactions)
      && ConvertToStringThenUint64(rec, MonthlyValueLabel) == Ok(r.value.value)
      && ConvertToStringThenFloat64(rec, HighLabel) == Ok(r.value.high)
      && ConvertToStringThenFloat64(rec, LowLabel) == Ok(r.value.low)
      && r.value.open == Zero && r.value.close == Zero
      && r.value.dateOfHigh == ZeroTime && r.value.dateOfLow == ZeroTime)
  {
    var rawMonth :- ConvertToFloat64(rec, MonthLabel);
    match ParseMonth(Format02(rawMonth))
    case None => Err(Panicked(FormatInt(rawMonth) + " is not a legal month"))
    case Some(month) =>
      ParseMonthOfFormat02(rawMonth);
      var volume :- ConvertToStringThenUint64(rec, MonthlyVolumeLabel);
      var transactions :- ConvertToStringThenUint64(rec, TransactionsLabel);
      var value :- ConvertToStringThenUint64(rec, MonthlyValueLabel);
      var high :- ConvertToStringThenFloat64(rec, HighLabel);
      var low :- ConvertToStringThenFloat64(rec, LowLabel);
      Ok(EmptyQuote.(code := code, date := Date(year, month, 1), volume := volume,
        transactions := transactions, value := value, high := high, low := low))
  }

  /** The "2006/1/02" parse of a ROC year turned Gregorian and a
      `month/day` cell. */
  function ParseYearlyDay(year: int, monthDay: string): Option<Date>
  {
    ParseYearMonthDay(FormatInt(year) + "/" + monthDay)
  }

  /** A day parsed under a year lies in that year. */
  lemma {:induction false} ParseYearlyDayYear(year: int, monthDay: string)
    requires ParseYearlyDay(year, monthDay).Some?
    ensures ParseYearlyDay(year, monthDay).value.year == year
  {
    if !(1000 <= year <= 9999) {
      ParseYearMonthDayNeedsFourDigits(year, monthDay);
    } else {
      ItoaLength(year);
      var s := FormatInt(year) + "/" + monthDay;
      assert s[..4] == Itoa(year);
    }
  }

  /** `convertRawYearlyQuote`: a row of one stock's history, one per year.
      The year is a ROC year, 1911 less than the Gregorian one; the days of
      the high and the low are a `month/day` of that year. */
  function ConvertRawYearlyQuote(rec: Record, code: string): (r: Result<Quote, Error>)
    ensures r.Ok? <==> (ConvertToFloat64(rec, YearLabel).Ok?
      && ConvertToString(rec, DateLabel).Ok? && ParseYearlyDay(1911 + rec[YearLabel].n, rec[DateLabel].s).Some?
      && ConvertToString(rec, DateOfLowLabel).Ok?
      && ParseYearlyDay(1911 + rec[YearLabel].n, rec[DateOfLowLabel].s).Some?
      && ConvertToStringThenUint64(rec, VolumeLabel).Ok?
      && ConvertToStringThenUint64(rec, TransactionsLabel).Ok?
      && ConvertToStringThenUint64(rec, ValueLabel).Ok?
      && ConvertToStringThenFloat64(rec, HighLabel).Ok?
      && ConvertToStringThenFloat64(rec, LowLabel).Ok?)
    ensures r.Ok? ==> (ConvertToFloat64(rec, YearLabel).Ok?
      && r.value.date == Date(1911 + rec[YearLabel].n, 1, 1))
    ensures r.Ok? ==> (ConvertToString(rec, DateLabel).Ok? && ConvertToString(rec, DateOfLowLabel).Ok?
      && ParseYearlyDay(r.value.date.year, rec[DateLabel].s) == Some(r.value.dateOfHigh)
      && ParseYearlyDay(r.value.date.year, rec[DateOfLowLabel].s) == Some(r.value.dateOfLow))
    ensures r.Ok? ==> (r.value.code == code && r.value.name == ""
      && ConvertToStringThenUint64(rec, VolumeLabel) == Ok(r.value.volume)
      && ConvertToStringThenUint64(rec, TransactionsLabel) == Ok(r.value.transactions)
      && ConvertToStringThenUint64(rec, ValueLabel) == Ok(r.value.value)
      && ConvertToStringThenFloat64(rec, HighLabel) == Ok(r.value.high)
      && ConvertToStringThenFloat64(rec, LowLabel) == Ok(r.value.low)
      && r.value.open == Zero && r.value.close == Zero)
  {
    var rawYear :- ConvertToFloat64(rec, YearLabel);
    var year := 1911 + rawYear;
    var rawDateOfHigh :- ConvertToString(rec, DateLabel);
    match ParseYearlyDay(year, rawDateOfHigh)
    case None => Err(Panicked(rawDateOfHigh + " is not a legal month/day"))
    case Some(dateOfHigh) =>
      var rawDateOfLow :- ConvertToString(rec, DateOfLowLabel);
      match ParseYearlyDay(year, rawDateOfLow)
      case None => Err(Panicked(rawDateOfLow + " is not a legal month/day"))
      case Some(dateOfLow) =>
        var volume :- ConvertToStringThenUint64(rec, VolumeLabel);
        var transactions :- ConvertToStringThenUint64(rec, TransactionsLabel);
        var value :- ConvertToStringThenUint64(rec, ValueLabel);
        var high :- ConvertToStringThenFloat64(rec, HighLabel);
        var low :- ConvertToStringThenFloat64(rec, LowLabel);
        Ok(EmptyQuote.(code := code, date := Date(year, 1, 1), volume := volume,
          transactions := transactions, value := value, high := high, low := low,
          dateOfHigh := dateOfHigh, dateOfLow := dateOfLow))
  }

  // Properties of the decoders

  /** A month outside 1..12 stops the monthly decoder; any month inside is
      the month of the date. */
  lemma {:induction false} MonthlyMonthRange(rec: Record, code: string, year: int)
    requires MonthLabel in rec && rec[MonthLabel].Num?
    ensures !(1 <= rec[MonthLabel].n <= 12) ==>
      (ConvertRawMonthlyQuote(rec, code, year).Err? && ConvertRawMonthlyQuote(rec, code, year).error.Panicked?)
  {
    ParseMonthOfFormat02(rec[MonthLabel].n);
  }

  /** The yearly days of the high and the low: a cell `m/dd` under a ROC
      year y gives that day of the Gregorian year y + 1911, whenever it
      exists and the year has four digits. */
  lemma {:induction false} YearlyDayOfCell(rocYear: int, month: int, day: int)
    requires 1000 <= 1911 + rocYear <= 9999
    requires IsCalendarDate(Date(1911 + rocYear, month, day))
    ensures ParseYearlyDay(1911 + rocYear, FormatInt(month) + "/" + Format02(day)) == Some(Date(1911 + rocYear, month, day))
  {
    ParseYearMonthDayOfFormat(1911 + rocYear, month, day);
    assert FormatInt(1911 + rocYear) + "/" + (FormatInt(month) + "/" + Format02(day))
        == FormatInt(1911 + rocYear) + "/" + FormatInt(month) + "/" + Format02(day);
  }

  /** The dates of the yearly example: ROC year 108 with its high on 11/26 and
      its low on 2/22 is 2019, with those two days of 2019. */
  lemma YearlyExampleDates()
    ensures ParseYearlyDay(1911 + 108, "11/26") == Some(Date(2019, 11, 26))
    ensures ParseYearlyDay(1911 + 108, "2/22") == Some(Date(2019, 2, 22))
  {
    YearlyDayOfCell(108, 11, 26);
    YearlyDayOfCell(108, 2, 22);
    assert Itoa(11) == Itoa(1) + [DigitChar(1)];
    assert Itoa(26) == Itoa(2) + [DigitChar(6)];
    assert Itoa(22) == Itoa(2) + [DigitChar(2)];
    assert FormatInt(11) + "/" + Format02(26) == "11/26";
    assert FormatInt(2) + "/" + Format02(22) == "2/22";
  }

  /** A year that does not print as four digits stops the yearly decoder. */
  lemma {:induction false} YearlyNeedsFourDigitYear(rec: Record, code: string)
    requires YearLabel in rec && rec[YearLabel].Num?
    requires DateLabel in rec && rec[DateLabel].Str?
    requires !(1000 <= 1911 + rec[YearLabel].n <= 9999)
    ensures ConvertRawYearlyQuote(rec, code).Err? && ConvertRawYearlyQuote(rec, code).error.Panicked?
  {
    ParseYearMonthDayNeedsFourDigits(1911 + rec[YearLabel].n, rec[DateLabel].s);
  }

  // ---------------------------------------------------------------------
  // The four fetches

  /** The query of each public fetch. */
  datatype Request =
    | Day(date: Date)
    | Daily(code: string, year: int, month: int)
    | Monthly(code: string, year: int)
    | Yearly(code: string)

  /** The labels and rows keys: the day report has several tables and
      holds the quotes in its ninth. */
  function FieldsKey(req: Request): string {
    if req.Day? then "fields9" else "fields"
  }

  function ItemsKey(req: Request): string {
    if req.Day? then "data9" else "data"
  }

  function ConvertRaw(req: Request, rec: Record): Result<Quote, Error>
  {
    match req
    case Day(date) => ConvertRawDayQuote(rec, date)
    case Daily(code, year, month) => ConvertRawDailyQuote(rec, code, year, month)
    case Monthly(code, year) => ConvertRawMonthlyQuote(rec, code, year)
    case Yearly(code) => ConvertRawYearlyQuote(rec, code)
  }

  /** The decoder of the rows of `req`. */
  function Decoder(req: Request): Record -> Result<Quote, Error>
  {
    rec => ConvertRaw(req, rec)
  }

  /** The rows of a fetch decoded, or no rows when the exchange has no data. */
  function Decoded(resp: Response, req: Request): Result<seq<Quote>, Error>
  {
    match Fetch(resp)
    case Err(e) => if e.NoData? then Ok([]) else Err(e)
    case Ok(raw) =>
      var records :- Zipped(raw, FieldsKey(req), ItemsKey(req));
      ConvertAll(Decoder(req), records)
  }

  /** What `FetchDayQuotes` returns: the quotes keyed by code. */
  function DayQuotes(resp: Response, date: Date): Result<map<string, Quote>, Error>
  {
    var quotes :- Decoded(resp, Day(date));
    Ok(KeyByCode(quotes))
  }

  /** `FetchDayQuotes` after the fetch: no data is an empty map, other
      errors pass through, and each decoded row is stored under its code. */
  method FetchDayQuotes(resp: Response, date: Date) returns (r: Result<map<string, Quote>, Error>)
    ensures r == DayQuotes(resp, date)
  {
    var fetched := Fetch(resp);
    if fetched.Err? {
      if fetched.error.NoData? {
        return Ok(map[]);
      }
      return Err(fetched.error);
    }
    var zipped := ZipFieldsAndItems(fetched.value, "fields9", "data9");
    if zipped.Err? {
      return Err(zipped.error);
    }
    var rawDayQuotes := zipped.value;
    var qs: map<string, Quote> := map[];
    ghost var converted: seq<Quote> := [];
    var i := 0;
    while i < |rawDayQuotes|
      invariant 0 <= i <= |rawDayQuotes|
      invariant ConvertAll(Decoder(Day(date)), rawDayQuotes[..i]) == Ok(converted)
      invariant qs == KeyByCode(converted)
    {
      var q := ConvertRawDayQuote(rawDayQuotes[i], date);
      ConvertAllStep(Decoder(Day(date)), rawDayQuotes, i);
      if q.Err? {
        ConvertAllPrefixErr(Decoder(Day(date)), rawDayQuotes, i + 1);
        return Err(q.error);
      }
      KeyByCodeSnoc(converted, q.value);
      converted := converted + [q.value];
      qs := qs[q.value.code := q.value];
      i := i + 1;
    }
    assert rawDayQuotes[..i] == rawDayQuotes;
    return Ok(qs);
  }

  /** The loop shared by the three list fetches: decode each row in order
      and append it. */
  method AppendQuotes(req: Request, records: seq<Record>) returns (r: Result<seq<Quote>, Error>)
    ensures r == ConvertAll(Decoder(req), records)
  {
    var decode := Decoder(req);
    var qs: seq<Quote> := [];
    var i := 0;
    while i < |records|
      invariant 0 <= i <= |records|
      invariant ConvertAll(decode, records[..i]) == Ok(qs)
    {
      var q := decode(records[i]);
      ConvertAllStep(decode, records, i);
      if q.Err? {
        ConvertAllPrefixErr(decode, records, i + 1);
        return Err(q.error);
      }
      qs := qs + [q.value];
      i := i + 1;
    }
    assert records[..i] == records;
    return Ok(qs);
  }

  /** The post-fetch part of the three list fetches. */
  method FetchList(resp: Response, req: Request) returns (r: Result<seq<Quote>, Error>)
    requires !req.Day?
    ensures r == Decoded(resp, req)
  {
    var fetched := Fetch(resp);
    if fetched.Err? {
      if fetched.error.NoData? {
        return Ok([]);
      }
      return Err(fetched.error);
    }
    var zipped := ZipFieldsAndItems(fetched.value, "fields", "data");
    if zipped.Err? {
      return Err(zipped.error);
    }
    r := AppendQuotes(req, zipped.value);
  }

  /** `FetchDailyQuotes`: the days of one stock's month. */
  method FetchDailyQuotes(resp: Response, code: string, year: int, month: int) returns (r: Result<seq<Quote>, Error>)
    ensures r == Decoded(resp, Daily(code, year, month))
  {
    r := FetchList(resp, Daily(code, year, month));
  }

  /** `FetchMonthlyQuotes`: the months of one stock's year. */
  method FetchMonthlyQuotes(resp: Response, code: string, year: int) returns (r: Result<seq<Quote>, Error>)
    ensures r == Decoded(resp, Monthly(code, year))
  {
    r := FetchList(resp, Monthly(code, year));
  }

  /** `FetchYearlyQuotes`: the years of one stock's history. */
  method FetchYearlyQuotes(resp: Response, code: string) returns (r: Result<seq<Quote>, Error>)
    ensures r == Decoded(resp, Yearly(code))
  {
    r := FetchList(resp, Yearly(code));
  }

  // Properties of the fetches

  /** No data is an empty result without error; every other error of the
      classification is returned unchanged. */
  lemma {:induction false} FetchErrors(resp: Response, req: Request)
    requires Fetch(resp).Err?
    ensures Fetch(resp).error.NoData? ==> Decoded(resp, req) == Ok([])
    ensures !Fetch(resp).error.NoData? ==> Decoded(resp, req) == Err(Fetch(resp).error)
    ensures req.Day? ==> (Fetch(resp).error.NoData? <==> DayQuotes(resp, req.date) == Ok(map[]))
    ensures req.Day? && !Fetch(resp).error.NoData? ==> DayQuotes(resp, req.date) == Err(Fetch(resp).error)
  {
    if req.Day? {
      assert KeyByCode([]) == map[];
    }
  }

  /** On success every row of the table became a quote, in row order. */
  lemma {:induction false} DecodedRows(resp: Response, req: Request)
    requires Decoded(resp, req).Ok? && Fetch(resp).Ok?
    ensures Zipped(Fetch(resp).value, FieldsKey(req), ItemsKey(req)).Ok?
    ensures var rows := Zipped(Fetch(resp).value, FieldsKey(req), ItemsKey(req)).value;
      var quotes := Decoded(resp, req).value;
      |quotes| == |rows| && forall i :: 0 <= i < |rows| ==> ConvertRaw(req, rows[i]) == Ok(quotes[i])
  {
  }

  /** A quote agrees with a list query: it carries the queried code and no
      name, and its date agrees with the query (the query's year and month
      for a stock's month, the first of a month of the query year for a
      stock's year, the first of January, with the days of the high and the
      low in that year, for a stock's history). */
  predicate MatchesQuery(req: Request, q: Quote)
    requires !req.Day?
  {
    q.code == req.code && q.name == ""
    && (req.Daily? ==> q.date.year == req.year && q.date.month == req.month)
    && (req.Monthly? ==> q.date.year == req.year && 1 <= q.date.month <= 12 && q.date.day == 1)
    && (req.Yearly? ==> (q.date.month == 1 && q.date.day == 1
      && q.dateOfHigh.year == q.date.year && q.dateOfLow.year == q.date.year))
  }

  lemma {:induction false} ConvertRawMatchesQuery(req: Request, rec: Record)
    requires !req.Day? && ConvertRaw(req, rec).Ok?
    ensures MatchesQuery(req, ConvertRaw(req, rec).value)
  {
    match req
    case Daily(code, year, month) =>
    case Monthly(code, year) =>
    case Yearly(code) =>
      var q := ConvertRawYearlyQuote(rec, code).value;
      ParseYearlyDayYear(q.date.year, rec[DateLabel].s);
      ParseYearlyDayYear(q.date.year, rec[DateOfLowLabel].s);
  }

  /** Every quote of a list fetch agrees with the query. */
  lemma {:induction false} ListQuotesMatchQuery(resp: Response, req: Request, i: nat)
    requires !req.Day? && Decoded(resp, req).Ok? && i < |Decoded(resp, req).value|
    ensures MatchesQuery(req, Decoded(resp, req).value[i])
  {
    var fetched := Fetch(resp);
    assert fetched.Ok?;
    var rows := Zipped(fetched.value, FieldsKey(req), ItemsKey(req)).value;
    assert ConvertRaw(req, rows[i]) == Ok(Decoded(resp, req).value[i]);
    ConvertRawMatchesQuery(req, rows[i]);
  }

  /** The day map: every key is the code of its quote, every quote is one of
      the decoded rows and carries the query date, the keys are exactly the
      decoded codes, and a code maps to the last row that has it. */
  lemma {:induction false} DayQuotesKeyed(resp: Response, date: Date, i: nat)
    requires DayQuotes(resp, date).Ok?
    ensures Decoded(resp, Day(date)).Ok?
    ensures var m := DayQuotes(resp, date).value;
      var quotes := Decoded(resp, Day(date)).value;
      (forall code :: code in m ==> m[code].code == code && m[code].date == date && m[code] in quotes)
      && m.Keys == (set k | 0 <= k < |quotes| :: quotes[k].code)
      && (i < |quotes| && (forall j :: i < j < |quotes| ==> quotes[j].code != quotes[i].code) ==>
          quotes[i].code in m && m[quotes[i].code] == quotes[i])
  {
    var quotes := Decoded(resp, Day(date)).value;
    var m := DayQuotes(resp, date).value;
    assert m == KeyByCode(quotes);
    KeyByCodeKeys(quotes);
    if i < |quotes| && (forall j :: i < j < |quotes| ==> quotes[j].code != quotes[i].code) {
      KeyByCodeLastWins(quotes, i);
    }
    DecodedDates(resp, date);
  }

  /** Every row of the day report carries the query date. */
  lemma {:induction false} DecodedDates(resp: Response, date: Date)
    requires Decoded(resp, Day(date)).Ok?
    ensures forall k :: 0 <= k < |Decoded(resp, Day(date)).value| ==> Decoded(resp, Day(date)).value[k].date == date
  {
    if Fetch(resp).Ok? {
      var quotes := Decoded(resp, Day(date)).value;
      var rows := Zipped(Fetch(resp).value, "fields9", "data9").value;
      forall k | 0 <= k < |quotes| ensures quotes[k].date == date {
        assert ConvertRaw(Day(date), rows[k]) == Ok(quotes[k]);
      }
    }
  }
}

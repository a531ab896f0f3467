# tshakutshai quote decoding, in Dafny

This project models the deterministic core of `tshakutshai`, a Go client
for two Taiwanese exchange endpoints: the Taiwan Stock Exchange (TWSE) and
the Taipei Exchange (TPEx). The model leaves out the HTTP exchange itself
and covers what happens around it:

- **Throttle** (`Throttle`, for `pkg/http/http.go` and its copy
  `pkg/internal/throttle/http.go`). One class serves both copies. Its `Do`
  waits until `minInterval` has passed since the previous inner call
  returned, delegates, and then records when the inner call returned. Time
  is an abstract monotonic clock in nanoseconds. The environment passes in
  the current time, how far a sleep overruns, how long the inner call
  takes, and what it yields.
- **TWSE classification** (`Twse.Fetch`). Its input is a response that has
  already been parsed: a transport error, or a media type together with a
  decoded JSON body. It returns the body, or NoData, QuotaExceeded,
  ConnectionError, or a plain error.
- **TWSE field zipper and typed reads** (`TwseUtil`). Repeated header
  labels are renamed with an occurrence suffix (`b`, `b2`, `b3`). Headers
  are paired strictly with rows. Typed reads take values out of the
  labelled records: comma stripping, and `--` read as zero.
- **TWSE row decoders and the four fetches** (`Twse`). ROC years (+1911),
  month and day assembly, the day report keyed by code, and the three
  per-stock lists.
- **TPEx decoding** (`TpexDeserialize`, `Tpex`). Counts and prices with
  thousands separators, `---` read as zero, ROC `yyy/MM/DD` dates, the
  letter-based line filter in front of the CSV reader, the positional
  column maps and their ×1000 scaling (with `uint64` wrap-around).

Helper modules model the parts of Go's standard library that the core
relies on. `GoStrings` covers `Split`, `SplitN`, `Join` and `TrimSpace`, and
the removal of every comma (`Replace`/`ReplaceAll` with an empty
replacement). `GoStrconv` covers `ParseUint`, `ParseInt`, `Atoi` and `%d` /
`%02d`, plus a decimal stand-in for `ParseFloat`. `GoTime` covers
`time.Date` arguments and the `"01"`, `"01/02"` and `"2006/1/02"` parse
layouts. `JsonValue` covers `json.Unmarshal` into the shapes the clients
ask for. The quote record and keying by code are in `Quotes`. The
row-by-row decode loop shared by all fetches is `Rows.ConvertAll`.

Where the code and its intended behaviour disagree, the model follows the
code:

- **NoData policy.** All four TWSE fetches turn NoData into an empty
  result, including the three single-stock fetches.
- **Decode failures.** These are Go panics in the code. The model returns
  them as error values instead (`Panicked(message)` for TWSE, an error
  string for TPEx).
- **No-trade sentinel.** TWSE maps exactly `--` to zero. TPEx maps `---`
  after trimming white space. Neither accepts any other run of dashes.
- **Draft signatures.** `twse.go` calls `retrieveStat` and uses single-value
  returns of the `convertTo*` helpers. The model uses the error-returning
  helpers of `pkg/client/twse/util.go` instead. An `isStatOK` error, meaning
  no `stat` key or a non-string one, becomes a plain error.
- **Error type names.** `NoDataError` and `noDataError` are one kind.
- **Header labels.** The TWSE header labels are modelled as distinct named
  constants that carry the exchange's Chinese headers. The label of the
  day of the low is the label of the day of the high followed by `2`, which
  is the name the suffixing gives to the second occurrence.

## Model

| member | source | states |
|---|---|---|
| `TwseUtil.IsStatOK` | pkg/client/twse/util.go:11-23 | fails exactly when `stat` is missing or is neither a JSON string nor null; gives true exactly when `stat` is the string "OK" |
| `TwseUtil.RetrieveFields` | pkg/client/twse/util.go:25-37 | fails exactly when the key is absent or its value is not a list of strings; otherwise gives that list |
| `TwseUtil.RetrieveItems` | pkg/client/twse/util.go:39-51 | fails exactly when the key is absent or its value is not a list of rows; otherwise gives those rows |
| `TwseUtil.SuffixDuplicateFields` | pkg/client/twse/util.go:53-75 | the two-map, two-pass loop rewrites the array in place into the suffixed labels of its old contents |
| `TwseUtil.CountLabels` | pkg/client/twse/util.go:54-59 | the first pass leaves, for every label, its number of occurrences |
| `TwseUtil.SuffixedIndex` | pkg/client/twse/util.go:61-72 | position i of the renamed list is the label, or the label followed by one more than its earlier occurrences when it has any |
| `TwseUtil.SuffixedNoRepeats` | pkg/client/twse/util.go:62-64 | a list with no repeated label comes back unchanged |
| `TwseUtil.SuffixedKeepsLabels` | pkg/client/twse/util.go:61-74 | length and order are kept, and each new name starts with the old label |
| `TwseUtil.SuffixedOccurrence` | pkg/client/twse/util.go:66-71 | the first occurrence keeps its name; the k-th (k ≥ 2) becomes the label followed by decimal k |
| `TwseUtil.SuffixedSeparatesOccurrences` | pkg/client/twse/util.go:66-71 | two occurrences of the same label never get the same name |
| `TwseUtil.SuffixedExample` | pkg/client/twse/util_test.go:13-14 | `[a,b,c,b,b,c]` becomes `[a,b,c,b2,b3,c2]` |
| `TwseUtil.Zip` | pkg/client/twse/util.go:94-100 | fails exactly when some row's length differs from the number of labels (no partial result); otherwise one record per row, in row order |
| `TwseUtil.ZipRecords` | pkg/client/twse/util.go:92-114 | the nested loops over a preallocated slice return exactly the pairing `Zip` specifies |
| `TwseUtil.ZipFieldsAndItems` | pkg/client/twse/util.go:77-115 | retrieves labels and rows, suffixes the labels in place, then pairs them |
| `TwseUtil.ZippedRecords` | pkg/client/twse/util.go:92-114 | on success both keys were present and well-shaped; there is one record per row; record i maps suffixed label j to row i's cell j (unless a later label has the same name) |
| `TwseUtil.ZipRowKeys` | pkg/client/twse/util.go:102-109 | a record's keys are exactly the labels |
| `TwseUtil.ZipRowAt` | pkg/client/twse/util.go:103-109 | label j maps to cell j when no later label has the same name |
| `TwseUtil.ZippedRowLengthMismatch` | pkg/client/twse/util.go:95-100 | one row of the wrong length fails the whole call |
| `TwseUtil.ZippedNeedsBothKeys` | pkg/client/twse/util.go:78-86 | a missing or ill-shaped labels entry or rows entry fails the call |
| `TwseUtil.ConvertToString` | pkg/client/twse/util.go:117-129 | fails exactly when the field is absent or not a string; otherwise the stored string |
| `TwseUtil.ConvertToFloat64` | pkg/client/twse/util.go:131-144 | fails exactly when the field is absent or not a number; otherwise the stored number |
| `TwseUtil.ConvertToStringThenUint64` | pkg/client/twse/util.go:146-158 | succeeds exactly when the string with all commas deleted is a base-10 `uint64`, and gives its value |
| `TwseUtil.ConvertToStringThenFloat64` | pkg/client/twse/util.go:160-177 | exactly `--` gives zero without parsing; otherwise succeeds exactly when the comma-free string parses, and gives its value |
| `TwseUtil.ConvertThousands` | pkg/client/twse/util.go:152 | every count printed with thousands separators reads back as that count |
| `TwseUtil.ConvertPrice` | pkg/client/twse/util.go:171 | every price printed with thousands separators reads back as that price |
| `TwseUtil.ConvertNoTrade` | pkg/client/twse/util.go:166-169 | `--` reads as zero, and it would not parse as a number without that rule |
| `TwseErrors.ErrorString` | pkg/client/twse/errors.go:12-33 | each typed error renders as its prefix ("NoData: ", "QuotaExceeded: ", "ConnectionError: ") followed by its message |
| `TwseErrors.ErrorStringInjective` | pkg/client/twse/errors.go:12-14 | a rendered typed error determines its kind and its message |
| `TwseErrors.DistinctKindsRenderDistinctly` | pkg/client/twse/errors.go:22-33 | errors of different kinds never render to the same string |
| `Twse.Fetch` | pkg/client/twse/twse.go:96-124 | EOF gives QuotaExceeded; other transport errors give ConnectionError; a non-JSON media type gives QuotaExceeded; stat not "OK" gives NoData; a bad stat gives a plain error; otherwise the body unchanged (each an if-and-only-if) |
| `Twse.MediaTypeBeforeBody` | pkg/client/twse/twse.go:106-113 | a non-JSON media type decides the outcome whatever the body |
| `Twse.StatDecides` | pkg/client/twse/twse.go:115-124 | a JSON body passes exactly when its stat is "OK"; any other stat string gives NoData with the stat in the message |
| `Twse.SuffixedDateLabels` | pkg/client/twse/twse.go:222-228 | in a header with the date label twice, the first keeps its name (high) and the second becomes the low-date label |
| `Twse.ConvertRawQuote` | pkg/client/twse/twse.go:160-170 | succeeds exactly when all three counts and four prices read; each field is the read of its label; everything else is zero |
| `Twse.ConvertRawDayQuote` | pkg/client/twse/twse.go:172-178 | the shared fields plus code and name read from the row, and the query date |
| `Twse.ConvertRawDailyQuote` | pkg/client/twse/twse.go:180-197 | succeeds exactly when the date cell is a string that splits into three parts on '/', the third part is a base-10 `int32`, and the shared fields read; the day is that third part; the date is the query year and month with that day; code is the query code, name empty |
| `Twse.ConvertRawMonthlyQuote` | pkg/client/twse/twse.go:199-216 | succeeds exactly when the month cell is a number in 1..12 and the five count and price cells read; the date is the first of that month in the query year; counts and high/low come from their labels; open and close are zero |
| `Twse.MonthlyMonthRange` | pkg/client/twse/twse.go:200-205 | a month number outside 1..12 stops the decoder |
| `Twse.ConvertRawYearlyQuote` | pkg/client/twse/twse.go:218-245 | succeeds exactly when the year cell is a number, both date cells parse as `month/day` of year 1911 + ROC year ("2006/1/02" layout), and the five count and price cells read; the date is January 1 of that year; the days of the high and the low are those parses |
| `Twse.ParseYearlyDayYear` | pkg/client/twse/twse.go:223 | a day parsed with the "2006/1/02" layout lies in the year it was given |
| `Twse.YearlyDayOfCell` | pkg/client/twse/twse.go:222-232 | every existing `m/dd` under a four-digit year is read as that day of that year |
| `Twse.YearlyExampleDates` | integration/twse/twse_test.go:136-145 | ROC year 108 with cells "11/26" and "2/22" gives 2019-11-26 and 2019-02-22 |
| `Twse.YearlyNeedsFourDigitYear` | pkg/client/twse/twse.go:223-226 | a Gregorian year that does not print as four digits stops the yearly decoder |
| `Twse.FetchDayQuotes` | pkg/client/twse/twse.go:247-267 | the loop stores each decoded row under its code and returns exactly `DayQuotes` |
| `Twse.AppendQuotes` | pkg/client/twse/twse.go:282-285 | the append loop returns every row decoded in order, or the first row's error |
| `Twse.FetchList` | pkg/client/twse/twse.go:271-287 | the post-fetch logic shared by the three list fetches |
| `Twse.FetchDailyQuotes` | pkg/client/twse/twse.go:269-288 | returns exactly the decoded daily rows, or empty on NoData |
| `Twse.FetchMonthlyQuotes` | pkg/client/twse/twse.go:290-309 | returns exactly the decoded monthly rows, or empty on NoData |
| `Twse.FetchYearlyQuotes` | pkg/client/twse/twse.go:311-330 | returns exactly the decoded yearly rows, or empty on NoData |
| `Twse.FetchErrors` | pkg/client/twse/twse.go:249-256 | NoData becomes an empty list or map with no error; every other classified error passes through unchanged |
| `Twse.DecodedRows` | pkg/client/twse/twse.go:280-285 | on success there is one quote per row, in row order |
| `Twse.ConvertRawMatchesQuery` | pkg/client/twse/twse.go:180-245 | every decoded list row carries the query code, an empty name, and dates that agree with the query |
| `Twse.ListQuotesMatchQuery` | pkg/client/twse/twse.go:280-329 | every quote of a list fetch carries the query code, an empty name, and dates that agree with the query |
| `Twse.DayQuotesKeyed` | pkg/client/twse/twse.go:258-266 | every key is its quote's code; every quote carries the query date; the keys are exactly the decoded codes; a code maps to its last row |
| `Twse.DecodedDates` | pkg/client/twse/twse.go:176 | every decoded day-report row carries the query date |
| `Quotes.KeyByCode` | pkg/client/twse/twse.go:260-264 | every key maps to a quote with that code that is one of the decoded quotes |
| `Quotes.KeyByCodeKeys` | pkg/client/tpex/tpex.go:135-152 | the keys are exactly the codes of the quotes |
| `Quotes.KeyByCodeLastWins` | pkg/client/twse/twse.go:261-264 | a later quote with the same code overwrites an earlier one |
| `Quotes.KeyByCodeDistinct` | pkg/client/tpex/tpex.go:151 | quotes with distinct codes are all kept |
| `Rows.ConvertAll` | pkg/client/twse/twse.go:324-327 | on success, one result per row, in order, each the decode of its row |
| `Rows.ConvertAllFirstError` | pkg/client/tpex/tpex.go:343-347 | the loop fails exactly when some row fails, and then with the first failing row's error |
| `JsonValue.ToString` | pkg/client/twse/util.go:17-20 | decoding into a string accepts a JSON string (itself) or null (empty) and nothing else |
| `JsonValue.ToStrings` | pkg/client/twse/util.go:31-34 | decoding into a list of strings succeeds exactly for null or an array whose every element decodes as a string |
| `JsonValue.ToRows` | pkg/client/twse/util.go:45-48 | decoding into rows succeeds exactly for null or an array of arrays (or nulls); cells keep their kind |
| `JsonValue.ToStringRows` | pkg/client/tpex/deserialize.go:17-20 | decoding into rows of strings succeeds exactly when every row decodes as a list of strings |
| `JsonValue.ToStringsOfStringArray` | pkg/client/twse/util.go:32 | decoding an encoded list of strings gives the list back |
| `TpexDeserialize.DeserializeSliceOfSlicesOfStrings` | pkg/client/tpex/deserialize.go:11-23 | fails exactly when the key is absent or not rows of strings; otherwise those rows |
| `TpexDeserialize.DeserializeString` | pkg/client/tpex/deserialize.go:25-37 | fails exactly when the key is absent or not a string; otherwise that string |
| `TpexDeserialize.StringToUint64` | pkg/client/tpex/deserialize.go:39-46 | succeeds exactly when the string with all commas deleted is a base-10 `uint64`, and gives its value |
| `TpexDeserialize.StringToUint64OfThousands` | pkg/client/tpex/deserialize.go:40 | every count printed with thousands separators reads back as that count |
| `TpexDeserialize.StringToUint64Example` | pkg/client/tpex/tpex_test.go:38 | "1,062,607" reads as 1062607 |
| `TpexDeserialize.StringToFloat64` | pkg/client/tpex/deserialize.go:48-59 | trimmed `---` gives zero without parsing; anything else succeeds exactly when its comma-free text parses, and gives that value |
| `TpexDeserialize.StringToFloat64OfNoTrade` | pkg/client/tpex/deserialize.go:49-51 | `---` with any white space around it reads as zero, though it is not a number |
| `TpexDeserialize.StringToFloat64OfPrice` | pkg/client/tpex/deserialize.go:53-58 | every price printed with thousands separators reads back as that price |
| `TpexDeserialize.AddInt64` | pkg/client/tpex/deserialize.go:77 | `rocYear + 1911` on `int64`: exact when in range, otherwise wrapped modulo 2^64 |
| `TpexDeserialize.StringToDate` | pkg/client/tpex/deserialize.go:61-78 | succeeds exactly when there is a '/', the part before the first one is a decimal `int64`, and the rest is a two-digit month and day that exist; Gregorian year = ROC year + 1911 |
| `TpexDeserialize.StringToDateNeedsSlash` | pkg/client/tpex/deserialize.go:62-65 | without a '/' the call fails |
| `TpexDeserialize.StringToDateOfRocQueryDate` | pkg/client/tpex/tpex.go:98 | the query date `%d/MM/DD` of year − 1911 parses back to the same date, for every calendar day |
| `TpexDeserialize.RocQueryDateExample` | pkg/client/tpex/tpex_test.go:23 | March 30 2021 is queried as "110/03/30" |
| `TpexDeserialize.StringToDateExample` | pkg/client/tpex/tpex_test.go:68 | "110/02/25" reads as 2021-02-25 |
| `Tpex.DayQuote` | pkg/client/tpex/tpex.go:137-152 | succeeds exactly when the row has at least 11 cells and the three counts and four prices read; then code item[0], name item[1], close 2, open 4, high 5, low 6, volume 8, value 9, transactions 10, unscaled, with the query date |
| `Tpex.DailyQuote` | pkg/client/tpex/tpex.go:163-180 | succeeds exactly when `stkName` is present and the row has at least 9 cells whose date, counts and prices read; then date = `stringToDate(item[0])`, volume item[1]×1000, value item[2]×1000, transactions item[8] unscaled, open/high/low/close at 3 to 6, the name from `stkName` |
| `Tpex.ConvertRawMonthlyQuote` | pkg/client/tpex/tpex.go:209-254 | date = (raw[0], raw[1], 1); volume raw[7]×1000; value raw[6]×1000; transactions raw[5] unscaled; high/low raw[2]/raw[3]; a short record fails |
| `Tpex.MonthlyQuoteOfRecord` | pkg/client/tpex/tpex_test.go:98-101 | conversely, a record whose cells all read decodes to exactly those values with that scaling |
| `Tpex.ConvertRawYearlyQuote` | pkg/client/tpex/tpex.go:277-329 | date = January 1 of raw[0]; volume, value and transactions (raw[1..3]) all ×1000; the days of the high and the low are the row's year with the `MM/DD` of raw[5] and raw[7] |
| `Tpex.YearlyQuoteOfRecord` | pkg/client/tpex/tpex_test.go:124-130 | conversely, a record whose cells all read decodes to exactly those values with that scaling |
| `Tpex.FetchDayQuotes` | pkg/client/tpex/tpex.go:129-155 | the loop stores each decoded row under its code and returns exactly `DayQuotes` |
| `Tpex.AppendQuotes` | pkg/client/tpex/tpex.go:268-272 | the append loop returns every row decoded in order, or the first row's error |
| `Tpex.FetchDailyQuotes` | pkg/client/tpex/tpex.go:157-183 | returns exactly the decoded rows of `aaData` |
| `Tpex.FetchMonthlyQuotes` | pkg/client/tpex/tpex.go:256-275 | returns exactly the CSV records decoded in order |
| `Tpex.FetchYearlyQuotes` | pkg/client/tpex/tpex.go:331-350 | returns exactly the CSV records decoded in order |
| `Tpex.DayQuotesKeyed` | pkg/client/tpex/tpex.go:137-152 | every key is its quote's code; every quote carries the query date; the keys are exactly the decoded codes; a code maps to its last row |
| `Tpex.DayListDates` | pkg/client/tpex/tpex.go:140 | every decoded day row carries the query date |
| `Tpex.ListQuotesMatchQuery` | pkg/client/tpex/tpex.go:163-180 | one quote per row in row order, each with the query code; monthly and yearly names are empty |
| `Tpex.FilterOutInvalidLines` | pkg/client/tpex/tpex.go:185-207 | splits on newlines, keeps the data lines, joins them with newlines |
| `Tpex.CollectDataLines` | pkg/client/tpex/tpex.go:190-204 | the two-stage loop with its early break collects exactly the data lines |
| `Tpex.DataLinesAreARun` | pkg/client/tpex/tpex.go:190-201 | the kept lines are one contiguous run in input order; every line before it has a letter, none in it does, the line after it does; nothing is kept exactly when every line has a letter |
| `Tpex.DataLinesOfRun` | pkg/client/tpex/tpex.go:193-201 | lettered header lines, clean data lines and a lettered footer leave exactly the data lines |
| `Tpex.FilteredHasNoLetter` | pkg/client/tpex/tpex.go:191-198 | the output contains no ASCII letter |
| `Tpex.FilteredAllLettered` | pkg/client/tpex/tpex.go:186-206 | if every line has a letter, the output is the empty string |
| `Tpex.FilteredOfDownload` | pkg/client/tpex/tpex.go:185-207 | a download laid out as header, data, footer filters to the data lines joined by newlines |
| `GoStrconv.Times1000` | pkg/client/tpex/tpex.go:248-250 | `x * 1000` on `uint64`: a `uint64` congruent to x·1000 modulo 2^64, so exact below 2^64 / 1000 and wrapped otherwise |
| `Throttle.Elapsed` | pkg/internal/throttle/http.go:28 | `now.Sub(last)` is the difference, saturated to the `time.Duration` range |
| `Throttle.Wait` | pkg/internal/throttle/http.go:28-31 | it waits exactly when less than `minInterval` has elapsed, and then exactly long enough to reach `last + minInterval` |
| `Throttle.ThrottledClient.constructor` | pkg/http/http.go:21-26 | `minInterval` is set once; `last` is the zero time; no call has been made |
| `Throttle.ThrottledClient.Do` | pkg/http/http.go:28-40 | the inner call starts no earlier than `last + minInterval`; `last` becomes the time the inner call returned, whatever it yielded; the inner outcome is returned unchanged |
| `Throttle.FirstCallDoesNotWait` | pkg/internal/throttle/http.go:17-22 | from the zero `last`, a call made at least `minInterval` after the zero time does not wait |
| `Throttle.SpacedSpan` | pkg/http/http.go:32-37 | inner calls spaced by `minInterval` span at least (N − 1) · `minInterval` |
| `Throttle.Burst` | pkg/http/http_test.go:28-49 | N calls through one client run the inner client once each, and end at least (N − 1) · `minInterval` after they began |

## Left out

- Network and request building. This covers `http.NewRequest`, the URL
  building, the `fetchJSON`/`fetchPlainText` bodies, and the panics for a
  nil `HttpClient` or a bad request. The TWSE model starts from an abstract
  response. The TPEx model starts from the decoded body or the CSV
  records.
- `json.Unmarshal`/`json.NewDecoder`. Bodies arrive as a parsed JSON tree,
  so a body that is not JSON at all (a panic in TWSE, a returned error in
  TPEx) is not modelled.
- JSON numbers are modelled as integers. The `int(rawMonth)` and
  `int(rawYear)` truncation of fractional values is not modelled.
- TwseUtil.ConvertToFloat64: returns the stored JSON number as an integer.
  A fractional `float64` cell is not representable in the model.
- Throttle.ThrottledClient.Do: requires `now >= last`. This is the
  monotonic reading Go's `time.Now` provides. A clock that steps backwards,
  which would make the wait longer than `minInterval`, is not modelled.
- `mime.ParseMediaType`. The media type arrives already parsed, so its
  failure (a panic) is not modelled.
- `encoding/csv`. `FetchMonthlyQuotes`/`FetchYearlyQuotes` of TPEx start
  from the records the reader returns. The quoting rules and reader errors
  are not modelled.
- `strconv.ParseFloat`. Prices are decimals (integer units and a scale).
  `ParseDecimal` accepts an optional sign and digits with at most one
  point, but no exponent, `Inf`, `NaN`, hexadecimal or underscore forms.
- `TpexDeserialize.StringToDate`: the ROC year is read as plain decimal.
  `ParseInt` with base 0 would also accept `0x`, `0o`, `0b`, leading-zero
  octal and underscores.
- `time.Date` normalisation. A date is kept as the arguments given to
  `time.Date`, so an out-of-range day (for example `Feb 30` from a daily
  row, or `Feb 29` in a non-leap year from an `"01/02"` parse) is not
  carried into the next month.
- Error message texts are abbreviated. Go's `%v` rendering of maps and
  rows is not reproduced.
- The mutex, `time.Now` and `time.Sleep` in the throttle. Calls are taken
  one after the other, the order the mutex gives them. The clock is
  abstract and monotonic (`now >= last`).
- `pkg/quote/quote.go`, the test mocks and fixture loaders, the example
  tests, and the integration tests against live servers are not part of
  this model.
- Draft API mismatches are not behaviour and are not modelled. These are
  `NewThrottledClient` declared with one argument but called with two, a
  test building `Client{http: …}`, and an example calling `NewClient()`
  without an argument.

/** The TPEx decoders of single values: lookups in a decoded JSON body,
    counts and prices with thousands separators, and dates written with a
    ROC year. Every failure of these is a panic in the client; the model
    returns it as an error carrying the panic message. */
module TpexDeserialize {
  import opened Wrappers
  import opened GoStrings
  import opened GoStrconv
  import opened GoTime
  import opened JsonValue

  /** `deserializeSliceOfSlicesOfStrings`: the rows under `key`, a
      `[][]string`. */
  function DeserializeSliceOfSlicesOfStrings(raw: map<string, Json>, key: string): (r: Result<seq<seq<string>>, string>)
    ensures r.Err? <==> key !in raw || ToStringRows(raw[key]).None?
    ensures r.Ok? ==> Some(r.value) == ToStringRows(raw[key])
  {
    if key !in raw then Err("key '" + key + "' does not exist")
    else
      match ToStringRows(raw[key])
      case None => Err("failed to unmarshal")
      case Some(items) => Ok(items)
  }

  /** `deserializeString`: the string under `key`. */
  function DeserializeString(raw: map<string, Json>, key: string): (r: Result<string, string>)
    ensures r.Err? <==> key !in raw || ToString(raw[key]).None?
    ensures r.Ok? ==> Some(r.value) == ToString(raw[key])
  {
    if key !in raw then Err("key '" + key + "' does not exist")
    else
      match ToString(raw[key])
      case None => Err("failed to unmarshal")
      case Some(s) => Ok(s)
  }

  /** `stringToUint64`: every comma deleted, then a base-10 unsigned 64-bit
      integer. */
  function StringToUint64(s: string): (r: Result<U64, string>)
    ensures r.Ok? <==> ParseUint(RemoveAll(s, ',')).Some?
    ensures r.Ok? ==> r.value == DigitsValue(RemoveAll(s, ','))
  {
    match ParseUint(RemoveAll(s, ','))
    case None => Err("value " + s + " is not uint64")
    case Some(v) => Ok(v)
  }

  /** `stringToFloat64`: "---" (no trade), once surrounding white space is
      trimmed, is 0 without parsing; anything else, with every comma
      deleted, must be a number. */
  function StringToFloat64(s: string): (r: Result<Decimal, string>)
    ensures TrimSpace(s) == "---" ==> r == Ok(Zero)
    ensures TrimSpace(s) != "---" ==> (r.Ok? <==> ParseDecimal(RemoveAll(s, ',')).Some?)
    ensures TrimSpace(s) != "---" && r.Ok? ==> Some(r.value) == ParseDecimal(RemoveAll(s, ','))
  {
    if TrimSpace(s) == "---" then Ok(Zero)
    else
      match ParseDecimal(RemoveAll(s, ','))
      case None => Err("value " + s + " is not float64")
      case Some(v) => Ok(v)
  }

  /** `int64` addition wraps around. */
  function AddInt64(a: int, b: int): (r: int)
    requires MinInt64 <= a <= MaxInt64 && MinInt64 <= b <= MaxInt64
    ensures MinInt64 <= r <= MaxInt64
    ensures MinInt64 <= a + b <= MaxInt64 ==> r == a + b
    ensures (r - (a + b)) % 0x1_0000_0000_0000_0000 == 0
  {
    if a + b > MaxInt64 then a + b - 0x1_0000_0000_0000_0000
    else if a + b < MinInt64 then a + b + 0x1_0000_0000_0000_0000
    else a + b
  }

  /** `stringToDate`: cut at the first '/'; the part before is a ROC year,
      the part after a two-digit month and day that must exist (in a leap
      year, as "01/02" has no year); the Gregorian year is the ROC year
      plus 1911. */
  function StringToDate(s: string): (r: Result<Date, string>)
    ensures r.Ok? <==> ('/' in s
      && ParseInt(SplitFirst(s, '/')[0], 64).Some?
      && ParseMonthDay(SplitFirst(s, '/')[1]).Some?)
    ensures r.Ok? ==> (1 <= r.value.month <= 12 && 1 <= r.value.day <= DaysIn(r.value.month, 0)
      && r.value.year == AddInt64(ParseInt(SplitFirst(s, '/')[0], 64).value, 1911)
      && ParseMonthDay(SplitFirst(s, '/')[1]).value == Date(0, r.value.month, r.value.day))
  {
    var parts := SplitFirst(s, '/');
    if |parts| != 2 then Err("the format of '" + s + "' is unexpected")
    else
      match ParseInt(parts[0], 64)
      case None => Err("failed to parse " + parts[0] + " to int")
      case Some(rocYear) =>
        match ParseMonthDay(parts[1])
        case None => Err("failed to parse " + parts[1] + " to month and day")
        case Some(t) => Ok(Date(AddInt64(rocYear, 1911), t.month, t.day))
  }

  /** The query date of the day and daily endpoints: the ROC year in `%d`,
      then the date's "01/02". */
  function RocQueryDate(date: Date): string
  {
    FormatInt(date.year - 1911) + "/" + FormatMonthDay(date.month, date.day)
  }

  // ---------------------------------------------------------------------
  // Properties

  /** A query date is read back as the same date, for every day of the
      calendar whose ROC year fits in 64 bits. */
  lemma {:induction false} StringToDateOfRocQueryDate(date: Date)
    requires IsCalendarDate(date)
    requires MinInt64 <= date.year - 1911 && date.year <= MaxInt64
    ensures StringToDate(RocQueryDate(date)) == Ok(date)
  {
    RocQueryDateSplits(date);
    ParseIntFormatInt(date.year - 1911, 64);
    DaysInYearZero(date.month, date.year);
    ParseFormatMonthDay(date.month, date.day);
    DateOfParts(RocQueryDate(date), date.year - 1911, Date(0, date.month, date.day));
  }

  /** `stringToDate` of a string whose two parts parse. */
  lemma {:induction false} DateOfParts(s: string, rocYear: int, t: Date)
    requires |SplitFirst(s, '/')| == 2
    requires ParseInt(SplitFirst(s, '/')[0], 64) == Some(rocYear)
    requires ParseMonthDay(SplitFirst(s, '/')[1]) == Some(t)
    ensures StringToDate(s) == Ok(Date(AddInt64(rocYear, 1911), t.month, t.day))
  {
  }

  lemma {:induction false} RocQueryDateSplits(date: Date)
    ensures SplitFirst(RocQueryDate(date), '/') == [FormatInt(date.year - 1911), FormatMonthDay(date.month, date.day)]
  {
    var roc := FormatInt(date.year - 1911);
    assert '/' !in roc by {
      if date.year - 1911 < 0 {
        assert roc == "-" + Itoa(-(date.year - 1911));
      }
    }
    SplitFirstAt(roc, '/', FormatMonthDay(date.month, date.day));
  }

  /** The query date of the package's test, March 30 2021. */
  lemma RocQueryDateExample()
    ensures RocQueryDate(Date(2021, 3, 30)) == "110/03/30"
  {
    RocYear110();
    assert Format02(3) == "03";
    assert Format02(30) == "30" by {
      assert Itoa(30) == Itoa(3) + [DigitChar(0)];
    }
  }

  /** The date of the package's test row, "110/02/25". */
  lemma StringToDateExample()
    ensures StringToDate("110/02/25") == Ok(Date(2021, 2, 25))
  {
    RocQueryDateOfTestRow();
    StringToDateOfRocQueryDate(Date(2021, 2, 25));
  }

  lemma RocQueryDateOfTestRow()
    ensures RocQueryDate(Date(2021, 2, 25)) == "110/02/25"
  {
    RocYear110();
    assert Format02(2) == "02";
    assert Format02(25) == "25" by {
      assert Itoa(25) == Itoa(2) + [DigitChar(5)];
    }
  }

  /** 2021 is the ROC year 110. */
  lemma RocYear110()
    ensures FormatInt(2021 - 1911) == "110"
  {
    assert Itoa(11) == "11" by {
      assert Itoa(11) == Itoa(1) + [DigitChar(1)];
    }
    assert Itoa(110) == Itoa(11) + [DigitChar(0)];
  }

  /** Without a '/' there is no date; the part after the first '/' is read
      whole, so a second '/' in a two-digit month and day is rejected. */
  lemma {:induction false} StringToDateNeedsSlash(s: string)
    requires '/' !in s
    ensures StringToDate(s).Err?
  {
  }

  /** A count printed with thousands separators reads back as the count. */
  lemma {:induction false} StringToUint64OfThousands(n: nat)
    requires n <= MaxUint64
    ensures StringToUint64(FormatThousands(n)) == Ok(n)
  {
    ParseUintOfThousands(n);
  }

  /** The value of the package's test row, "1,062,607". */
  lemma StringToUint64Example()
    ensures StringToUint64("1,062,607") == Ok(1062607)
  {
    StringToUint64OfThousands(1062607);
    ThousandsOfTestRow();
  }

  lemma ThousandsOfTestRow()
    ensures FormatThousands(1062607) == "1,062,607"
  {
    assert FormatThousands(1062) == "1,062" by {
      assert Pad3(62) == "062";
    }
    assert Pad3(607) == "607";
  }

  /** The no-trade marker, with any white space around it, reads as zero;
      it is not a number, so only that rule lets it through. */
  lemma {:induction false} StringToFloat64OfNoTrade(before: string, after: string)
    requires AllSpace(before) && AllSpace(after)
    ensures StringToFloat64(before + "---" + after) == Ok(Zero)
    ensures ParseDecimal("---").None?
  {
    TrimSpaceAround(before, "---", after);
    DashesAreNotDecimals();
  }

  /** A price printed with thousands separators reads back as the price. */
  lemma {:induction false} StringToFloat64OfPrice(n: nat, frac: string)
    requires AllDigits(frac)
    ensures StringToFloat64(FormatThousands(n) + "." + frac) == Ok(Decimal(n * Pow10(|frac|) + DigitsValue(frac), |frac|))
  {
    ParseDecimalOfThousands(n, frac);
    PriceIsNotNoTrade(n, frac);
  }

  /** A printed price has no white space to trim and is not the marker. */
  lemma {:induction false} PriceIsNotNoTrade(n: nat, frac: string)
    requires AllDigits(frac)
    ensures TrimSpace(FormatThousands(n) + "." + frac) != "---"
  {
    var s := FormatThousands(n) + "." + frac;
    ThousandsLeadingDigit(n);
    assert s[0] == FormatThousands(n)[0];
    assert TrimLeft(s) == s;
    assert !IsSpace(s[|s| - 1]) by {
      if |frac| > 0 { assert s[|s| - 1] == frac[|frac| - 1]; }
    }
    assert TrimSpace(s) == s;
  }

  lemma {:induction false} ThousandsLeadingDigit(n: nat)
    ensures |FormatThousands(n)| > 0 && IsDigit(FormatThousands(n)[0])
  {
    if n >= 1000 {
      ThousandsLeadingDigit(n / 1000);
    }
  }
}

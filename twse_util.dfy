/** The helpers of the TWSE client that turn a decoded response into
    records keyed by header label and read typed values out of them. */
module TwseUtil {
  import opened Wrappers
  import opened GoStrings
  import opened GoStrconv
  import opened JsonValue
  import opened TwseErrors

  /** A decoded response body: `map[string]json.RawMessage`. */
  type RawData = map<string, Json>

  /** One row keyed by header label: `map[string]interface{}`. */
  type Record = map<string, Scalar>

  // ---------------------------------------------------------------------
  // Lookups on the decoded body

  /** `isStatOK`: the status marker must be present and decode as a string;
      the answer is whether it is exactly "OK". */
  function IsStatOK(raw: RawData): (r: Result<bool, Error>)
    ensures r.Err? <==> "stat" !in raw || ToString(raw["stat"]).None?
    ensures r == Ok(true) <==> "stat" in raw && raw["stat"] == JStr("OK")
    ensures r.Err? ==> r.error.Failed?
  {
    if "stat" !in raw then Err(Failed("key 'stat' does not exist"))
    else
      match ToString(raw["stat"])
      case None => Err(Failed("failed to unmarshal"))
      case Some(stat) => Ok(stat == "OK")
  }

  /** `retrieveFields`: the header labels under `key`, a `[]string`. */
  function RetrieveFields(raw: RawData, key: string): (r: Result<seq<string>, Error>)
    ensures r.Err? <==> key !in raw || ToStrings(raw[key]).None?
    ensures r.Ok? ==> Some(r.value) == ToStrings(raw[key])
    ensures r.Err? ==> r.error.Failed?
  {
    if key !in raw then Err(Failed("key '" + key + "' does not exist"))
    else
      match ToStrings(raw[key])
      case None => Err(Failed("failed to unmarshal"))
      case Some(fields) => Ok(fields)
  }

  /** `retrieveItems`: the rows under `key`, a `[][]interface{}`. */
  function RetrieveItems(raw: RawData, key: string): (r: Result<seq<seq<Scalar>>, Error>)
    ensures r.Err? <==> key !in raw || ToRows(raw[key]).None?
    ensures r.Ok? ==> Some(r.value) == ToRows(raw[key])
    ensures r.Err? ==> r.error.Failed?
  {
    if key !in raw then Err(Failed("key '" + key + "' does not exist"))
    else
      match ToRows(raw[key])
      case None => Err(Failed("failed to unmarshal"))
      case Some(items) => Ok(items)
  }

  // ---------------------------------------------------------------------
  // Suffixing repeated labels

  /** Occurrences of `x` in `xs`. */
  function Count(xs: seq<string>, x: string): (n: nat)
    ensures n <= |xs|
  {
    if |xs| == 0 then 0
    else Count(xs[..|xs| - 1], x) + (if xs[|xs| - 1] == x then 1 else 0)
  }

  /** The name position `i` gets: a label seen `k - 1` times before keeps
      its name when `k` is 1 and becomes the label followed by `k` otherwise. */
  function SuffixedAt(fields: seq<string>, i: nat): string
    requires i < |fields|
  {
    var earlier := Count(fields[..i], fields[i]);
    if earlier == 0 then fields[i] else fields[i] + FormatInt(earlier + 1)
  }

  /** The labels after `suffixDuplicateFields`. */
  function Suffixed(fields: seq<string>): (r: seq<string>)
    ensures |r| == |fields|
  {
    if |fields| == 0 then []
    else Suffixed(fields[..|fields| - 1]) + [SuffixedAt(fields, |fields| - 1)]
  }

  /** Position `i` of the renamed labels is the name `SuffixedAt` gives it. */
  lemma {:induction false} SuffixedIndex(fields: seq<string>)
    ensures forall i :: 0 <= i < |fields| ==> Suffixed(fields)[i] == SuffixedAt(fields, i)
  {
    if |fields| > 0 {
      var n := |fields| - 1;
      var init := fields[..n];
      SuffixedIndex(init);
      var r := Suffixed(fields);
      assert r == Suffixed(init) + [SuffixedAt(fields, n)];
      forall i | 0 <= i < |fields| ensures r[i] == SuffixedAt(fields, i) {
        if i < n {
          SuffixedAtOfPrefix(fields, n, i);
          assert r[i] == Suffixed(init)[i];
        }
      }
    }
  }

  lemma SuffixedAtOfPrefix(fields: seq<string>, n: nat, i: nat)
    requires i < n <= |fields|
    ensures SuffixedAt(fields[..n], i) == SuffixedAt(fields, i)
  {
    assert fields[..n][..i] == fields[..i] && fields[..n][i] == fields[i];
  }

  /** Conversely, a list naming every position as `SuffixedAt` does is the
      renamed list. */
  lemma {:induction false} SuffixedOfIndex(fields: seq<string>, r: seq<string>)
    requires |r| == |fields|
    requires forall i :: 0 <= i < |fields| ==> r[i] == SuffixedAt(fields, i)
    ensures r == Suffixed(fields)
  {
    SuffixedIndex(fields);
  }

  /** A missing key of a Go `map[string]int` reads as 0. */
  function Get(m: map<string, int>, x: string): int {
    if x in m then m[x] else 0
  }

  /** `suffixDuplicateFields`: count every label into `fixed` and
      `unfixed`, then walk the labels, renaming each repeated one by how
      many of its occurrences were already passed. */
  method SuffixDuplicateFields(fields: array<string>)
    modifies fields
    ensures fields[..] == Suffixed(old(fields[..]))
  {
    ghost var orig := fields[..];
    var fixed := CountLabels(fields);
    var unfixed := fixed;
    var i := 0;
    while i < fields.Length
      invariant 0 <= i <= fields.Length && |orig| == fields.Length
      invariant Renamed(orig, fields[..], i) && Unfixed(orig, unfixed, i)
    {
      var field := fields[i];
      ghost var cur := fields[..];
      ghost var before := unfixed;
      if Get(fixed, field) != 1 {
        var diff := Get(fixed, field) - Get(unfixed, field);
        RenameRepeated(unfixed, orig, i);
        unfixed := unfixed[field := Get(unfixed, field) - 1];
        if diff > 0 {
          fields[i] := field + FormatInt(diff + 1);
        }
      } else {
        RenameSingle(orig, i);
      }
      assert fields[..] == cur[i := SuffixedAt(orig, i)];
      RenameStep(orig, cur, i, before, unfixed);
      i := i + 1;
    }
    SuffixedOfIndex(orig, fields[..]);
  }

  /** The state of the second pass before position `i`: the positions
      passed carry their new names, the others their old ones. */
  ghost predicate Renamed(orig: seq<string>, cur: seq<string>, i: nat)
  {
    |cur| == |orig| && i <= |orig|
    && (forall k :: 0 <= k < i ==> cur[k] == SuffixedAt(orig, k))
    && (forall k :: i <= k < |cur| ==> cur[k] == orig[k])
  }

  /** The state of the second pass before position `i`: for each repeated
      label, `unfixed` counts the occurrences not yet passed. */
  ghost predicate Unfixed(orig: seq<string>, unfixed: map<string, int>, i: nat)
    requires i <= |orig|
  {
    forall x :: Count(orig, x) != 1 ==> Get(unfixed, x) == Count(orig, x) - Count(orig[..i], x)
  }

  /** The second pass moves past position `i`. */
  lemma {:induction false} RenameStep(orig: seq<string>, cur: seq<string>, i: nat,
                                      unfixed: map<string, int>, updated: map<string, int>)
    requires i < |orig| && Renamed(orig, cur, i) && Unfixed(orig, unfixed, i)
    requires Count(orig, orig[i]) == 1 ==> updated == unfixed
    requires Count(orig, orig[i]) != 1 ==> updated == unfixed[orig[i] := Get(unfixed, orig[i]) - 1]
    ensures Renamed(orig, cur[i := SuffixedAt(orig, i)], i + 1) && Unfixed(orig, updated, i + 1)
  {
    PassStep(unfixed, updated, orig, i);
  }

  /** The first pass of `suffixDuplicateFields`: how often each label
      occurs. */
  method CountLabels(fields: array<string>) returns (counts: map<string, int>)
    ensures forall x :: Get(counts, x) == Count(fields[..], x)
  {
    counts := map[];
    var i := 0;
    while i < fields.Length
      invariant 0 <= i <= fields.Length
      invariant forall x :: Get(counts, x) == Count(fields[..i], x)
    {
      var field := fields[i];
      ghost var before := counts;
      counts := counts[field := Get(counts, field) + 1];
      TallyStep(before, counts, fields[..], i);
      i := i + 1;
    }
    assert fields[..fields.Length] == fields[..];
  }

  /** The first pass: one more occurrence of `xs[i]` is counted. */
  lemma {:induction false} TallyStep(counts: map<string, int>, updated: map<string, int>, xs: seq<string>, i: nat)
    requires i < |xs|
    requires forall x :: Get(counts, x) == Count(xs[..i], x)
    requires updated == counts[xs[i] := Get(counts, xs[i]) + 1]
    ensures forall x :: Get(updated, x) == Count(xs[..i + 1], x)
  {
    CountStep(xs, i);
    forall x ensures Get(updated, x) == Count(xs[..i + 1], x) {
      assert Count(xs[..i + 1], x) == Count(xs[..i], x) + (if xs[i] == x then 1 else 0);
    }
  }

  /** The second pass at a label that occurs once: it keeps its name. */
  lemma {:induction false} RenameSingle(xs: seq<string>, i: nat)
    requires i < |xs| && Count(xs, xs[i]) == 1
    ensures SuffixedAt(xs, i) == xs[i]
  {
    CountStep(xs, i);
    CountPrefix(xs, i + 1, xs[i]);
  }

  /** The second pass at a repeated label: `fixed - unfixed` is the number
      of its occurrences already passed. */
  lemma {:induction false} RenameRepeated(unfixed: map<string, int>, xs: seq<string>, i: nat)
    requires i < |xs| && Count(xs, xs[i]) != 1
    requires Get(unfixed, xs[i]) == Count(xs, xs[i]) - Count(xs[..i], xs[i])
    ensures Count(xs, xs[i]) - Get(unfixed, xs[i]) == Count(xs[..i], xs[i])
    ensures var diff := Count(xs[..i], xs[i]);
      SuffixedAt(xs, i) == if diff > 0 then xs[i] + FormatInt(diff + 1) else xs[i]
  {
  }

  /** What `unfixed` holds after position `i` is passed. */
  lemma {:induction false} PassStep(unfixed: map<string, int>, updated: map<string, int>, xs: seq<string>, i: nat)
    requires i < |xs|
    requires forall x :: Count(xs, x) != 1 ==> Get(unfixed, x) == Count(xs, x) - Count(xs[..i], x)
    requires Count(xs, xs[i]) == 1 ==> updated == unfixed
    requires Count(xs, xs[i]) != 1 ==> updated == unfixed[xs[i] := Get(unfixed, xs[i]) - 1]
    ensures forall x :: Count(xs, x) != 1 ==> Get(updated, x) == Count(xs, x) - Count(xs[..i + 1], x)
  {
    CountStep(xs, i);
    forall x | Count(xs, x) != 1 ensures Get(updated, x) == Count(xs, x) - Count(xs[..i + 1], x) {
      assert Count(xs[..i + 1], x) == Count(xs[..i], x) + (if xs[i] == x then 1 else 0);
    }
  }

  lemma {:induction false} CountStep(xs: seq<string>, i: nat)
    requires i < |xs|
    ensures forall x :: Count(xs[..i + 1], x) == Count(xs[..i], x) + (if xs[i] == x then 1 else 0)
  {
    assert xs[..i + 1][..i] == xs[..i];
  }

  lemma {:induction false} CountPrefix(xs: seq<string>, j: nat, x: string)
    requires j <= |xs|
    ensures Count(xs[..j], x) <= Count(xs, x)
    decreases |xs| - j
  {
    if j < |xs| {
      CountStep(xs, j);
      CountPrefix(xs, j + 1, x);
    } else {
      assert xs[..j] == xs;
    }
  }

  // Properties of the renaming

  /** Labels that never repeat are left as they are. */
  lemma {:induction false} SuffixedNoRepeats(fields: seq<string>)
    requires forall i, j :: 0 <= i < j < |fields| ==> fields[i] != fields[j]
    ensures Suffixed(fields) == fields
  {
    SuffixedIndex(fields);
    forall i | 0 <= i < |fields| ensures SuffixedAt(fields, i) == fields[i] {
      CountAbsent(fields[..i], fields[i]);
    }
  }

  lemma {:induction false} CountAbsent(xs: seq<string>, x: string)
    requires x !in xs
    ensures Count(xs, x) == 0
  {
    if |xs| > 0 {
      assert x !in xs[..|xs| - 1];
      CountAbsent(xs[..|xs| - 1], x);
    }
  }

  /** Every label keeps its place and its text: the new name extends it. */
  lemma {:induction false} SuffixedKeepsLabels(fields: seq<string>, i: nat)
    requires i < |fields|
    ensures |Suffixed(fields)[i]| >= |fields[i]|
    ensures Suffixed(fields)[i][..|fields[i]|] == fields[i]
  {
    SuffixedIndex(fields);
  }

  /** The first occurrence of a label keeps its name; the k-th occurrence
      (k >= 2), counted from the left, is the label followed by k in decimal. */
  lemma {:induction false} SuffixedOccurrence(fields: seq<string>, i: nat)
    requires i < |fields|
    ensures Count(fields[..i + 1], fields[i]) == 1 ==> Suffixed(fields)[i] == fields[i]
    ensures Count(fields[..i + 1], fields[i]) >= 2 ==>
      Suffixed(fields)[i] == fields[i] + Itoa(Count(fields[..i + 1], fields[i]))
  {
    SuffixedIndex(fields);
    CountStep(fields, i);
  }

  /** Two occurrences of one label never end up with the same name. */
  lemma {:induction false} SuffixedSeparatesOccurrences(fields: seq<string>, i: nat, j: nat)
    requires i < j < |fields| && fields[i] == fields[j]
    ensures Suffixed(fields)[i] != Suffixed(fields)[j]
  {
    SuffixedIndex(fields);
    var x := fields[i];
    CountStep(fields, i);
    CountPrefixMonotone(fields, i + 1, j, x);
    var ci, cj := Count(fields[..i], x), Count(fields[..j], x);
    var si, sj := Suffixed(fields)[i], Suffixed(fields)[j];
    var tj := Itoa(cj + 1);
    assert sj == x + tj;
    if ci == 0 {
      assert |sj| > |si|;
    } else {
      var ti := Itoa(ci + 1);
      assert si == x + ti;
      if si == sj {
        AppendCancel(x, ti, tj);
        assert false;
      }
    }
  }

  lemma {:induction false} AppendCancel(x: string, a: string, b: string)
    requires x + a == x + b
    ensures a == b
  {
    assert a == (x + a)[|x|..];
    assert b == (x + b)[|x|..];
  }

  lemma {:induction false} CountPrefixMonotone(xs: seq<string>, a: nat, b: nat, x: string)
    requires a <= b <= |xs|
    ensures Count(xs[..a], x) <= Count(xs[..b], x)
  {
    assert xs[..b][..a] == xs[..a];
    CountPrefix(xs[..b], a, x);
  }

  /** The example of the package's own test. */
  lemma SuffixedExample()
    ensures Suffixed(["a", "b", "c", "b", "b", "c"]) == ["a", "b", "c", "b2", "b3", "c2"]
  {
    var p1: seq<string> := ["a"];
    var p2 := p1 + ["b"];
    var p3 := p2 + ["c"];
    var p4 := p3 + ["b"];
    var p5 := p4 + ["b"];
    SuffixedSnoc([], "a");
    assert [] + ["a"] == p1;
    assert Suffixed(p1) == ["a"];
    CountSnoc([], "a", "b");
    SuffixedSnoc(p1, "b");
    assert Suffixed(p2) == ["a", "b"];
    CountSnoc([], "a", "c");
    CountSnoc(p1, "b", "c");
    SuffixedSnoc(p2, "c");
    assert Suffixed(p3) == ["a", "b", "c"];
    CountSnoc([], "a", "b");
    CountSnoc(p1, "b", "b");
    CountSnoc(p2, "c", "b");
    SuffixedSnoc(p3, "b");
    assert Count(p3, "b") == 1;
    assert FormatInt(2) == "2";
    assert "b" + FormatInt(2) == "b2";
    assert Suffixed(p4) == ["a", "b", "c", "b2"];
    CountSnoc(p3, "b", "b");
    SuffixedSnoc(p4, "b");
    assert Count(p4, "b") == 2;
    assert "b" + FormatInt(3) == "b3";
    assert Suffixed(p5) == ["a", "b", "c", "b2", "b3"];
    CountSnoc(p2, "c", "c");
    CountSnoc(p3, "b", "c");
    CountSnoc(p4, "b", "c");
    assert Count(p5, "c") == 1;
    SuffixedSnoc(p5, "c");
    assert "c" + FormatInt(2) == "c2";
    assert p5 + ["c"] == ["a", "b", "c", "b", "b", "c"];
  }

  /** The renaming of one more label. */
  lemma SuffixedSnoc(xs: seq<string>, y: string)
    ensures Suffixed(xs + [y]) == Suffixed(xs) + [if Count(xs, y) == 0 then y else y + FormatInt(Count(xs, y) + 1)]
  {
    var s := xs + [y];
    assert s[..|xs|] == xs;
  }

  lemma CountSnoc(xs: seq<string>, y: string, x: string)
    ensures Count(xs + [y], x) == Count(xs, x) + (if y == x then 1 else 0)
  {
    assert (xs + [y])[..|xs|] == xs;
  }

  // ---------------------------------------------------------------------
  // Pairing labels with rows

  /** The record built for one row: label j maps to cell j, a later equal
      label overwriting an earlier one. */
  function ZipRow(fields: seq<string>, row: seq<Scalar>): Record
    requires |fields| == |row|
  {
    if |fields| == 0 then map[]
    else ZipRow(fields[..|fields| - 1], row[..|row| - 1])[fields[|fields| - 1] := row[|row| - 1]]
  }

  const RowLengthMismatch := "a row does not have as many elements as the fields"

  /** Pair suffixed labels with rows: every row must have exactly as many
      cells as there are labels, or the whole call fails. */
  function Zip(fields: seq<string>, items: seq<seq<Scalar>>): (r: Result<seq<Record>, Error>)
    ensures r.Err? <==> exists i :: 0 <= i < |items| && |items[i]| != |fields|
    ensures r.Err? ==> r.error == Failed(RowLengthMismatch)
    ensures r.Ok? ==> (|r.value| == |items|
      && forall i :: 0 <= i < |items| ==> |items[i]| == |fields| && r.value[i] == ZipRow(fields, items[i]))
  {
    if exists i :: 0 <= i < |items| && |items[i]| != |fields| then
      Err(Failed(RowLengthMismatch))
    else
      Ok(seq(|items|, i requires 0 <= i < |items| => ZipRow(fields, items[i])))
  }

  /** What `zipFieldsAndItems` returns. */
  function Zipped(raw: RawData, fieldsKey: string, itemsKey: string): Result<seq<Record>, Error>
  {
    var fields :- RetrieveFields(raw, fieldsKey);
    var items :- RetrieveItems(raw, itemsKey);
    Zip(Suffixed(fields), items)
  }

  /** `zipFieldsAndItems`: suffix the labels in place, then pair them with
      the rows. */
  method ZipFieldsAndItems(raw: RawData, fieldsKey: string, itemsKey: string)
    returns (r: Result<seq<Record>, Error>)
    ensures r == Zipped(raw, fieldsKey, itemsKey)
  {
    var fieldsResult := RetrieveFields(raw, fieldsKey);
    if fieldsResult.Err? {
      return Err(fieldsResult.error);
    }
    var itemsResult := RetrieveItems(raw, itemsKey);
    if itemsResult.Err? {
      return Err(itemsResult.error);
    }
    var retrieved := fieldsResult.value;
    var fields := new string[|retrieved|](k requires 0 <= k < |retrieved| => retrieved[k]);
    assert fields[..] == retrieved;
    SuffixDuplicateFields(fields);
    r := ZipRecords(fields[..], itemsResult.value);
  }

  /** The second half of `zipFieldsAndItems`: check every row's length,
      then build one fresh map per row in a preallocated slice. */
  method ZipRecords(names: seq<string>, items: seq<seq<Scalar>>) returns (r: Result<seq<Record>, Error>)
    ensures r == Zip(names, items)
  {
    var rawRecords := new Record[|items|](_ => map[]);
    var i := 0;
    while i < rawRecords.Length
      invariant 0 <= i <= rawRecords.Length
      invariant forall k :: 0 <= k < i ==> |items[k]| == |names| && rawRecords[k] == ZipRow(names, items[k])
    {
      if |names| != |items[i]| {
        return Err(Failed(RowLengthMismatch));
      }
      var rawRecord: Record := map[];
      var j := 0;
      while j < |names|
        invariant 0 <= j <= |names|
        invariant rawRecord == ZipRow(names[..j], items[i][..j])
        invariant forall k :: 0 <= k < i ==> rawRecords[k] == ZipRow(names, items[k])
      {
        ZipRowStep(names, items[i], j);
        rawRecord := rawRecord[names[j] := items[i][j]];
        j := j + 1;
      }
      assert names[..j] == names && items[i][..j] == items[i];
      assert rawRecord == ZipRow(names, items[i]);
      rawRecords[i] := rawRecord;
      i := i + 1;
    }
    r := Ok(rawRecords[..]);
    assert r.value == Zip(names, items).value;
  }

  lemma {:induction false} ZipRowStep(fields: seq<string>, row: seq<Scalar>, j: nat)
    requires |fields| == |row| && j < |fields|
    ensures ZipRow(fields[..j + 1], row[..j + 1]) == ZipRow(fields[..j], row[..j])[fields[j] := row[j]]
  {
    assert fields[..j + 1][..j] == fields[..j] && row[..j + 1][..j] == row[..j];
  }

  // Properties of the pairing

  /** A record's keys are exactly the labels. */
  lemma {:induction false} ZipRowKeys(fields: seq<string>, row: seq<Scalar>)
    requires |fields| == |row|
    ensures ZipRow(fields, row).Keys == set j | 0 <= j < |fields| :: fields[j]
  {
    if |fields| > 0 {
      var n := |fields| - 1;
      ZipRowKeys(fields[..n], row[..n]);
      var all := set j | 0 <= j < |fields| :: fields[j];
      var init := set j | 0 <= j < n :: fields[..n][j];
      assert all == init + {fields[n]} by {
        forall x | x in all ensures x in init + {fields[n]} {
          var j :| 0 <= j < |fields| && fields[j] == x;
          if j < n { assert fields[..n][j] == x; }
        }
        forall x | x in init ensures x in all {
          var j :| 0 <= j < n && fields[..n][j] == x;
          assert fields[j] == x;
        }
      }
    }
  }

  /** Label j maps to cell j unless a later label has the same name. */
  lemma {:induction false} ZipRowAt(fields: seq<string>, row: seq<Scalar>, j: nat)
    requires |fields| == |row| && j < |fields|
    requires forall k :: j < k < |fields| ==> fields[k] != fields[j]
    ensures fields[j] in ZipRow(fields, row) && ZipRow(fields, row)[fields[j]] == row[j]
  {
    var n := |fields| - 1;
    if j < n {
      ZipRowAt(fields[..n], row[..n], j);
    }
  }

  /** On success there is one record per row, in row order, and each
      record maps every suffixed label whose name is not taken again later
      to the cell at its position. */
  lemma {:induction false} ZippedRecords(raw: RawData, fieldsKey: string, itemsKey: string, i: nat, j: nat)
    requires Zipped(raw, fieldsKey, itemsKey).Ok?
    ensures fieldsKey in raw && itemsKey in raw
    ensures ToStrings(raw[fieldsKey]).Some? && ToRows(raw[itemsKey]).Some?
    ensures |Zipped(raw, fieldsKey, itemsKey).value| == |ToRows(raw[itemsKey]).value|
    ensures
      var names := Suffixed(ToStrings(raw[fieldsKey]).value);
      var rows := ToRows(raw[itemsKey]).value;
      i < |rows| && j < |names| && (forall k :: j < k < |names| ==> names[k] != names[j]) ==>
        |rows[i]| == |names| && names[j] in Zipped(raw, fieldsKey, itemsKey).value[i]
        && Zipped(raw, fieldsKey, itemsKey).value[i][names[j]] == rows[i][j]
  {
    var names := Suffixed(ToStrings(raw[fieldsKey]).value);
    var rows := ToRows(raw[itemsKey]).value;
    if i < |rows| && j < |names| && (forall k :: j < k < |names| ==> names[k] != names[j]) {
      ZipRowAt(names, rows[i], j);
    }
  }

  /** A row of the wrong length fails the whole call. */
  lemma {:induction false} ZippedRowLengthMismatch(raw: RawData, fieldsKey: string, itemsKey: string, i: nat)
    requires fieldsKey in raw && ToStrings(raw[fieldsKey]).Some?
    requires itemsKey in raw && ToRows(raw[itemsKey]).Some?
    requires i < |ToRows(raw[itemsKey]).value|
    requires |ToRows(raw[itemsKey]).value[i]| != |ToStrings(raw[fieldsKey]).value|
    ensures Zipped(raw, fieldsKey, itemsKey).Err?
  {
    var rows := ToRows(raw[itemsKey]).value;
    assert |rows[i]| != |Suffixed(ToStrings(raw[fieldsKey]).value)|;
  }

  /** A missing or ill-shaped labels or rows entry fails the call. */
  lemma {:induction false} ZippedNeedsBothKeys(raw: RawData, fieldsKey: string, itemsKey: string)
    ensures (fieldsKey !in raw || ToStrings(raw[fieldsKey]).None?) ==> Zipped(raw, fieldsKey, itemsKey).Err?
    ensures (itemsKey !in raw || ToRows(raw[itemsKey]).None?) ==> Zipped(raw, fieldsKey, itemsKey).Err?
  {
  }

  // ---------------------------------------------------------------------
  // Typed reads from a record

  /** `convertToString`: the field must be present and hold a string. */
  function ConvertToString(rec: Record, field: string): (r: Result<string, Error>)
    ensures r.Ok? <==> field in rec && rec[field].Str?
    ensures r.Ok? ==> r.value == rec[field].s
    ensures r.Err? ==> r.error.Failed?
  {
    if field !in rec then Err(Failed("field '" + field + "' does not exist"))
    else
      match rec[field]
      case Str(s) => Ok(s)
      case _ => Err(Failed("value of field '" + field + "' is not string"))
  }

  /** `convertToFloat64`: the field must be present and hold a number. */
  function ConvertToFloat64(rec: Record, field: string): (r: Result<int, Error>)
    ensures r.Ok? <==> field in rec && rec[field].Num?
    ensures r.Ok? ==> r.value == rec[field].n
    ensures r.Err? ==> r.error.Failed?
  {
    if field !in rec then Err(Failed("field '" + field + "' does not exist"))
    else
      match rec[field]
      case Num(n) => Ok(n)
      case _ => Err(Failed("value of field '" + field + "' is not a number"))
  }

  /** `convertToStringThenUint64`: a string with every comma deleted must
      be a base-10 unsigned 64-bit integer. */
  function ConvertToStringThenUint64(rec: Record, field: string): (r: Result<U64, Error>)
    ensures r.Ok? <==> field in rec && rec[field].Str? && ParseUint(RemoveAll(rec[field].s, ',')).Some?
    ensures r.Ok? ==> r.value == DigitsValue(RemoveAll(rec[field].s, ','))
    ensures r.Err? ==> r.error.Failed?
  {
    var s :- ConvertToString(rec, field);
    match ParseUint(RemoveAll(s, ','))
    case None => Err(Failed("value of field '" + field + "' is not uint64"))
    case Some(v) => Ok(v)
  }

  /** `convertToStringThenFloat64`: "--" (no trade) is 0 without parsing;
      anything else, with every comma deleted, must be a number. */
  function ConvertToStringThenFloat64(rec: Record, field: string): (r: Result<Decimal, Error>)
    ensures r.Ok? <==> (field in rec && rec[field].Str?
      && (rec[field].s == "--" || ParseDecimal(RemoveAll(rec[field].s, ',')).Some?))
    ensures r.Ok? && rec[field].s == "--" ==> r.value == Zero
    ensures r.Ok? && rec[field].s != "--" ==> Some(r.value) == ParseDecimal(RemoveAll(rec[field].s, ','))
    ensures r.Err? ==> r.error.Failed?
  {
    var s :- ConvertToString(rec, field);
    if s == "--" then Ok(Zero)
    else
      match ParseDecimal(RemoveAll(s, ','))
      case None => Err(Failed("value of field '" + field + "' is not float64"))
      case Some(v) => Ok(v)
  }

  // Properties of the typed reads

  /** A count printed with thousands separators reads back as the count. */
  lemma {:induction false} ConvertThousands(rec: Record, field: string, n: nat)
    requires n <= MaxUint64
    requires field in rec && rec[field] == Str(FormatThousands(n))
    ensures ConvertToStringThenUint64(rec, field) == Ok(n)
  {
    ParseUintOfThousands(n);
  }

  /** A price printed with thousands separators reads back as the price. */
  lemma {:induction false} ConvertPrice(rec: Record, field: string, n: nat, frac: string)
    requires AllDigits(frac)
    requires field in rec && rec[field] == Str(FormatThousands(n) + "." + frac)
    ensures ConvertToStringThenFloat64(rec, field) == Ok(Decimal(n * Pow10(|frac|) + DigitsValue(frac), |frac|))
  {
    ParseDecimalOfThousands(n, frac);
    var s := FormatThousands(n) + "." + frac;
    assert s[|FormatThousands(n)|] == '.';
    assert s != "--";
  }

  /** The no-trade marker is not a number, so only its special case lets
      such a row through, as zero. */
  lemma {:induction false} ConvertNoTrade(rec: Record, field: string)
    requires field in rec && rec[field] == Str("--")
    ensures ConvertToStringThenFloat64(rec, field) == Ok(Zero)
    ensures ParseDecimal(RemoveAll(rec[field].s, ',')).None?
  {
    DashesAreNotDecimals();
    assert RemoveAll("--", ',') == "--" by {
      assert ',' !in "--";
    }
  }
}

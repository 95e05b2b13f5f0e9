/** The measurement samples as the router writes them to and reads them back
    from the signal files (server/Protocol.java, SEND_MEASUREMENT and
    GET_MEASUREMENT_VALUES): the k-th sample v becomes the line `k,v,-`,
    and reading a file takes the second comma-separated column of every
    line as an `int`, skipping the lines where that fails. */
module MeasurementCsv {
  import opened Common
  import opened Json

  /** The line written for the sample at index `k`. */
  function ValueRow(k: int, v: Int32): string {
    IntToString(k) + "," + IntToString(v) + ",-"
  }

  /** The lines written for a whole array of samples, indexed from 0. */
  function MeasurementRows(values: seq<Int32>): (rows: seq<string>)
    ensures |rows| == |values|
    ensures forall k :: 0 <= k < |values| ==> rows[k] == ValueRow(k, values[k])
  {
    seq(|values|, k requires 0 <= k < |values| => ValueRow(k, values[k]))
  }

  /** The samples of the request read with `getAsInt`, in order, or the
      exception of the first one that is not an `int`. */
  function ReadInts(values: seq<Json>): (r: Result<seq<Int32>>)
    ensures r.Ok? ==> |r.value| == |values|
  {
    if values == [] then Ok([])
    else
      var init :- ReadInts(values[..|values| - 1]);
      var v :- GetAsInt(values[|values| - 1]);
      Ok(init + [v])
  }

  /** The samples are read exactly when each of them reads as an `int`, and
      then each reads as what `getAsInt` gives for it. */
  lemma {:induction false} ReadIntsMeaning(values: seq<Json>)
    ensures ReadInts(values).Ok? <==> forall k :: 0 <= k < |values| ==> GetAsInt(values[k]).Ok?
    ensures ReadInts(values).Ok? ==>
              && |ReadInts(values).value| == |values|
              && forall k :: 0 <= k < |values| ==> ReadInts(values).value[k] == GetAsInt(values[k]).value
  {
    if values != [] {
      var init := values[..|values| - 1];
      ReadIntsMeaning(init);
      assert forall k :: 0 <= k < |init| ==> init[k] == values[k];
    }
  }

  /** The loop of SEND_MEASUREMENT that turns the samples into lines; the
      first sample that is not an `int` raises out of it. */
  method BuildRows(values: seq<Json>) returns (r: Result<seq<string>>)
    ensures r.Ok? <==> ReadInts(values).Ok?
    ensures r.Ok? ==> r.value == MeasurementRows(ReadInts(values).value)
    ensures r.Err? ==> r.failure == ReadInts(values).failure
  {
    var rows: seq<string> := [];
    var i := 0;
    while i < |values|
      invariant 0 <= i <= |values|
      invariant ReadInts(values[..i]).Ok?
      invariant rows == MeasurementRows(ReadInts(values[..i]).value)
    {
      assert values[..i + 1][..i] == values[..i];
      var v := GetAsInt(values[i]);
      if v.Err? {
        FailureSpreads(values, i + 1);
        return Err(v.failure);
      }
      rows := rows + [ValueRow(i, v.value)];
      i := i + 1;
    }
    assert values[..i] == values;
    return Ok(rows);
  }

  /** Once a prefix of the samples fails, the whole array fails the same way. */
  lemma {:induction false} FailureSpreads(values: seq<Json>, n: nat)
    requires n <= |values| && ReadInts(values[..n]).Err?
    ensures ReadInts(values) == ReadInts(values[..n])
    decreases |values|
  {
    if n < |values| {
      var init := values[..|values| - 1];
      assert init[..n] == values[..n];
      FailureSpreads(init, n);
    } else {
      assert values[..n] == values;
    }
  }

  /** The sample a line carries: the second comma-separated column,
      trimmed, read with `Integer.parseInt`; none for a line with fewer than
      two columns or a column that is not an `int`. */
  function ReadValue(row: string): Option<Int32> {
    var parts := Split(row, ',');
    if |parts| >= 2 then ParseInt(Trim(parts[1])) else None
  }

  /** The values `read` finds in the lines, in line order; the lines where
      it finds none are skipped. */
  function Readings(rows: seq<string>, read: string -> Option<Int32>): seq<Int32> {
    if rows == [] then []
    else
      var last := match read(rows[|rows| - 1]) case Some(v) => [v] case None => [];
      Readings(rows[..|rows| - 1], read) + last
  }

  /** The samples read back from a file's lines, in line order. */
  function ParseValues(rows: seq<string>): seq<Int32> {
    Readings(rows, ReadValue)
  }

  /** The loop of GET_MEASUREMENT_VALUES over the file's lines. */
  method ValuesOf(rows: seq<string>) returns (values: seq<Int32>)
    ensures values == ParseValues(rows)
  {
    values := [];
    var i := 0;
    while i < |rows|
      invariant 0 <= i <= |rows| && values == ParseValues(rows[..i])
    {
      assert rows[..i + 1][..i] == rows[..i];
      assert ParseValues(rows[..i + 1])
               == ParseValues(rows[..i]) + match ReadValue(rows[i]) case Some(v) => [v] case None => [];
      var parts := Split(rows[i], ',');
      if |parts| >= 2 {
        var v := ParseInt(Trim(parts[1]));
        if v.Some? {
          values := values + [v.value];
        }
      }
      i := i + 1;
    }
    assert rows[..i] == rows;
  }

  // ------------------------------------------------ writing, then reading

  /** A piece without the separator is the first field of whatever follows it. */
  lemma FieldsAfter(a: string, rest: string)
    requires ',' !in a
    ensures Fields(a + [','] + rest, ',') == [a] + Fields(rest, ',')
  {
    var s := a + [','] + rest;
    assert s[|a|] == ',';
    assert forall j :: 0 <= j < |a| ==> s[j] == a[j];
    var i := IndexOf(s, ',');
    assert s[..i] == a;
    assert s[i + 1..] == rest;
  }

  /** A printed `int` holds neither the separator nor a character that
      `trim` removes. */
  lemma IntTextIsPlain(n: int)
    ensures ',' !in IntToString(n)
    ensures Trim(IntToString(n)) == IntToString(n)
  {
    var s := IntToString(n);
    assert s[0] > ' ' && s[|s| - 1] > ' ';
  }

  /** A line of two comma-free pieces and `-` splits into exactly those
      three fields. */
  lemma RowFields(a: string, b: string)
    requires ',' !in a && ',' !in b
    ensures Fields(a + [','] + (b + [','] + "-"), ',') == [a, b, "-"]
  {
    FieldsAfter(a, b + [','] + "-");
    FieldsAfter(b, "-");
  }

  /** A written line splits into its index, its sample and `-`. */
  lemma SplitValueRow(k: int, v: Int32)
    ensures Split(ValueRow(k, v), ',') == [IntToString(k), IntToString(v), "-"]
  {
    var a, b := IntToString(k), IntToString(v);
    IntTextIsPlain(k);
    IntTextIsPlain(v);
    var row := ValueRow(k, v);
    assert row == a + [','] + (b + [','] + "-");
    RowFields(a, b);
    assert row[|a|] == ',';
  }

  /** Reading a written line gives back its sample. */
  lemma ReadValueRow(k: int, v: Int32)
    ensures ReadValue(ValueRow(k, v)) == Some(v)
  {
    SplitValueRow(k, v);
    IntTextIsPlain(v);
    ParseIntToString(v);
  }

  /** Reading a file reads its parts one after the other. */
  lemma {:induction false} ReadingsAppend(a: seq<string>, b: seq<string>, read: string -> Option<Int32>)
    ensures Readings(a + b, read) == Readings(a, read) + Readings(b, read)
  {
    if b != [] {
      var init := b[..|b| - 1];
      assert (a + b)[..|a + b| - 1] == a + init;
      ReadingsAppend(a, init, read);
    } else {
      assert a + b == a;
    }
  }

  /** Lines that each carry one value read back as those values, in order. */
  lemma {:induction false} ReadingsOfReadable(rows: seq<string>, values: seq<Int32>, read: string -> Option<Int32>)
    requires |rows| == |values|
    requires forall k :: 0 <= k < |rows| ==> read(rows[k]) == Some(values[k])
    ensures Readings(rows, read) == values
  {
    if rows != [] {
      var n := |rows|;
      ReadingsOfReadable(rows[..n - 1], values[..n - 1], read);
      assert values == values[..n - 1] + [values[n - 1]];
    }
  }

  /** The samples written by one measurement are read back exactly. */
  lemma ParseValuesOfRows(values: seq<Int32>)
    ensures ParseValues(MeasurementRows(values)) == values
  {
    var rows := MeasurementRows(values);
    forall k | 0 <= k < |rows|
      ensures ReadValue(rows[k]) == Some(values[k])
    {
      ReadValueRow(k, values[k]);
    }
    ReadingsOfReadable(rows, values, ReadValue);
  }

  /** A file that already held lines reads back as its earlier samples
      followed by the new ones. */
  lemma AppendedValuesReadBack(before: seq<string>, values: seq<Int32>)
    ensures ParseValues(before + MeasurementRows(values)) == ParseValues(before) + values
  {
    ReadingsAppend(before, MeasurementRows(values), ReadValue);
    ParseValuesOfRows(values);
  }

  /** Samples sent as JSON numbers within the `int` range are read as
      themselves. */
  lemma {:induction false} ReadIntsOfNumbers(values: seq<Int32>)
    ensures ReadInts(Map(values, (v: Int32) => JNum(v))) == Ok(values)
  {
    if values != [] {
      var n := |values|;
      var js := Map(values, (v: Int32) => JNum(v));
      assert js[..n - 1] == Map(values[..n - 1], (v: Int32) => JNum(v));
      ReadIntsOfNumbers(values[..n - 1]);
      assert values == values[..n - 1] + [values[n - 1]];
    }
  }
}

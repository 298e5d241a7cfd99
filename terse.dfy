/**
 * Parsing nmcli's terse output: one record per line whose colon-separated
 * columns match the field list, or one record gathered from
 * `section.property:value` lines.
 */
module Terse {
  import opened Outcomes
  import opened Text

  /** One row of structured output: field or property name to text. */
  type Record = map<string, string>

  /** The set of names in a field list. */
  function Names(fields: seq<string>): set<string>
  {
    set f | f in fields
  }

  /** `dict(zip(fields, values))`: names paired with columns, a later duplicate name overriding an earlier one. */
  function Zip(fields: seq<string>, values: seq<string>): (r: Record)
    requires |fields| == |values|
    ensures r.Keys == Names(fields)
    decreases |fields|
  {
    if |fields| == 0 then map[]
    else
      var n := |fields| - 1;
      assert fields == fields[..n] + [fields[n]];
      Zip(fields[..n], values[..n])[fields[n] := values[n]]
  }

  /** No field name occurs twice. */
  predicate Distinct(fields: seq<string>)
  {
    forall i, j :: 0 <= i < j < |fields| ==> fields[i] != fields[j]
  }

  /** With distinct names, the zipped record maps the j-th name to the j-th column. */
  lemma {:induction false} ZipPositional(fields: seq<string>, values: seq<string>)
    requires |fields| == |values|
    requires Distinct(fields)
    ensures forall j :: 0 <= j < |fields| ==> Zip(fields, values)[fields[j]] == values[j]
    decreases |fields|
  {
    if |fields| > 0 {
      var n := |fields| - 1;
      ZipPositional(fields[..n], values[..n]);
      forall j | 0 <= j < |fields| ensures Zip(fields, values)[fields[j]] == values[j] {
        if j < n {
          assert fields[..n][j] == fields[j] != fields[n];
          assert values[..n][j] == values[j];
        }
      }
    }
  }

  /** The lines of nmcli's standard output, as `stdout.split('\n')` gives them. */
  function Lines(stdout: string): seq<string>
  {
    Split(stdout, '\n')
  }

  /** Whether a line has exactly as many colon-separated columns as there are fields. */
  predicate Fits(line: string, fields: seq<string>)
  {
    |Split(line, ':')| == |fields|
  }

  /** What one line contributes in single-line mode: its zipped record if it fits, else nothing. */
  function LineRecords(line: string, fields: seq<string>): (data: seq<Record>)
    ensures |data| <= 1
  {
    if Fits(line, fields) then [Zip(fields, Split(line, ':'))] else []
  }

  /** Single-line mode over the lines seen so far: the fitting lines, zipped with the fields, in order. */
  function SingleLineRecords(lines: seq<string>, fields: seq<string>): (data: seq<Record>)
    ensures |data| <= |lines|
    decreases |lines|
  {
    if |lines| == 0 then []
    else SingleLineRecords(lines[..|lines| - 1], fields) + LineRecords(lines[|lines| - 1], fields)
  }

  /** Output split anywhere parses as its two halves one after the other: records keep the order of their lines. */
  lemma {:induction false} SingleLineAppend(a: seq<string>, b: seq<string>, fields: seq<string>)
    ensures SingleLineRecords(a + b, fields) == SingleLineRecords(a, fields) + SingleLineRecords(b, fields)
    decreases |b|
  {
    if |b| == 0 {
      assert a + b == a;
    } else {
      var n := |b| - 1;
      var ab := a + b;
      calc {
        SingleLineRecords(ab, fields);
        { assert ab[..|ab| - 1] == a + b[..n]; assert ab[|ab| - 1] == b[n]; }
        SingleLineRecords(a + b[..n], fields) + LineRecords(b[n], fields);
        { SingleLineAppend(a, b[..n], fields); }
        (SingleLineRecords(a, fields) + SingleLineRecords(b[..n], fields)) + LineRecords(b[n], fields);
        SingleLineRecords(a, fields) + (SingleLineRecords(b[..n], fields) + LineRecords(b[n], fields));
        SingleLineRecords(a, fields) + SingleLineRecords(b, fields);
      }
    }
  }

  /** A record is the zip of some line of the output that has as many columns as fields. */
  predicate FromFittingLine(lines: seq<string>, fields: seq<string>, rec: Record)
  {
    exists i :: 0 <= i < |lines| && Fits(lines[i], fields) && rec == Zip(fields, Split(lines[i], ':'))
  }

  /**
   * Every record has exactly the field names as keys and is the zip of a
   * line with as many columns as fields; there is one record per line exactly
   * when every line fits.
   */
  lemma {:induction false} SingleLineRecordShape(lines: seq<string>, fields: seq<string>)
    ensures forall k :: 0 <= k < |SingleLineRecords(lines, fields)| ==>
              SingleLineRecords(lines, fields)[k].Keys == Names(fields)
    ensures forall k :: 0 <= k < |SingleLineRecords(lines, fields)| ==>
              FromFittingLine(lines, fields, SingleLineRecords(lines, fields)[k])
    ensures |SingleLineRecords(lines, fields)| == |lines| <==> forall i :: 0 <= i < |lines| ==> Fits(lines[i], fields)
    decreases |lines|
  {
    if |lines| > 0 {
      var n := |lines| - 1;
      var init := lines[..n];
      SingleLineRecordShape(init, fields);
      var data := SingleLineRecords(lines, fields);
      var prev := SingleLineRecords(init, fields);
      assert data == prev + LineRecords(lines[n], fields);
      forall k | 0 <= k < |data|
        ensures FromFittingLine(lines, fields, data[k])
        ensures data[k].Keys == Names(fields)
      {
        if k < |prev| {
          assert data[k] == prev[k];
          assert FromFittingLine(init, fields, prev[k]);
          var i :| 0 <= i < |init| && Fits(init[i], fields) && prev[k] == Zip(fields, Split(init[i], ':'));
          assert lines[i] == init[i];
          assert Fits(lines[i], fields) && data[k] == Zip(fields, Split(lines[i], ':'));
        } else {
          assert Fits(lines[n], fields);
          assert data[k] == Zip(fields, Split(lines[n], ':'));
        }
      }
      if forall i :: 0 <= i < |lines| ==> Fits(lines[i], fields) {
        assert forall i :: 0 <= i < |init| ==> Fits(init[i], fields) by {
          forall i | 0 <= i < |init| ensures Fits(init[i], fields) {
            assert init[i] == lines[i];
          }
        }
      } else {
        var i :| 0 <= i < |lines| && !Fits(lines[i], fields);
        if i < n {
          assert !Fits(init[i], fields);
        }
      }
    }
  }

  /** Whether a line has a colon, so that `split(':', 1)` gives a key and a value. */
  predicate HasColon(line: string)
  {
    ':' in line
  }

  /** A colon-bearing line whose key does not hold exactly one '.'. */
  predicate Malformed(line: string)
  {
    var kv := SplitOnce(line, ':');
    |kv| == 2 && |Split(kv[0], '.')| != 2
  }

  /** A colon-bearing line whose key is `section.p` for some section. */
  predicate Carries(line: string, p: string)
  {
    var kv := SplitOnce(line, ':');
    |kv| == 2 && var parts := Split(kv[0], '.'); |parts| == 2 && parts[1] == p
  }

  /** The value of a colon-bearing line: everything after its first colon. */
  function ValueOf(line: string): (v: string)
    requires HasColon(line)
    ensures exists key :: ':' !in key && line == key + ":" + v
  {
    SplitOnce(line, ':')[1]
  }

  /** One step of the multi-line loop: set `row[prop] = value`, skip a line without colon, fail on a bad key. */
  function MultiLineStep(row: Record, line: string): (r: Result<Record>)
    ensures r.Err? <==> Malformed(line)
    ensures !HasColon(line) ==> r == Ok(row)
  {
    var kv := SplitOnce(line, ':');
    if |kv| == 2 then
      var parts := Split(kv[0], '.');
      if |parts| == 2 then Ok(row[parts[1] := kv[1]]) else Err(BadMultikey(kv[0]))
    else Ok(row)
  }

  /** What one successful step does to a property: a line carrying it sets its value, any other line leaves it alone. */
  lemma MultiLineStepEffect(row: Record, line: string, p: string)
    requires MultiLineStep(row, line).Ok?
    ensures Carries(line, p) ==> p in MultiLineStep(row, line).value && MultiLineStep(row, line).value[p] == ValueOf(line)
    ensures !Carries(line, p) ==> (p in MultiLineStep(row, line).value <==> p in row)
    ensures !Carries(line, p) && p in row ==> MultiLineStep(row, line).value[p] == row[p]
  {
  }

  /** A well-formed `section.prop:value` line sets `prop` to `value`. */
  lemma MultiLineStepAt(row: Record, section: string, prop: string, value: string)
    requires '.' !in section && '.' !in prop
    requires ':' !in section && ':' !in prop
    ensures MultiLineStep(row, section + "." + prop + ":" + value) == Ok(row[prop := value])
  {
    var key := section + "." + prop;
    assert section + "." + prop + ":" + value == key + [':'] + value;
    SplitOnceAt(key, value, ':');
    JoinPair(section, prop, ".");
    SplitJoin([section, prop], '.');
  }

  /** The record the multi-line loop accumulates over the lines seen so far. */
  function MultiLineRow(lines: seq<string>): (r: Result<Record>)
    ensures r.Err? ==> r.error.BadMultikey?
    decreases |lines|
  {
    if |lines| == 0 then Ok(map[])
    else
      match MultiLineRow(lines[..|lines| - 1])
      case Err(e) => Err(e)
      case Ok(row) => MultiLineStep(row, lines[|lines| - 1])
  }

  /** Multi-line mode: the single accumulated record, or the failure of a bad key. */
  function MultiLineRecords(lines: seq<string>): (r: Result<seq<Record>>)
    ensures r.Ok? ==> |r.value| == 1
  {
    match MultiLineRow(lines)
    case Err(e) => Err(e)
    case Ok(row) => Ok([row])
  }

  /** Some colon-bearing line has a key without exactly one '.'. */
  predicate SomeMalformed(lines: seq<string>)
  {
    exists i :: 0 <= i < |lines| && Malformed(lines[i])
  }

  /** A malformed line among `lines` is one among all but the last, or the last. */
  lemma SomeMalformedSnoc(lines: seq<string>)
    requires |lines| > 0
    ensures SomeMalformed(lines) <==> SomeMalformed(lines[..|lines| - 1]) || Malformed(lines[|lines| - 1])
  {
    var init := lines[..|lines| - 1];
    if SomeMalformed(lines) && !Malformed(lines[|lines| - 1]) {
      var i :| 0 <= i < |lines| && Malformed(lines[i]);
      assert init[i] == lines[i];
    }
    if SomeMalformed(init) {
      var i :| 0 <= i < |init| && Malformed(init[i]);
      assert init[i] == lines[i];
    }
  }

  /** The loop fails by the last line exactly when it failed before it or that line is malformed. */
  lemma MultiLineRowSnoc(lines: seq<string>)
    requires |lines| > 0
    ensures MultiLineRow(lines).Err? <==> MultiLineRow(lines[..|lines| - 1]).Err? || Malformed(lines[|lines| - 1])
  {
  }

  /** Multi-line parsing fails exactly when some colon-bearing line has a key without exactly one '.'. */
  lemma {:induction false} MultiLineFailsIff(lines: seq<string>)
    ensures MultiLineRow(lines).Err? <==> SomeMalformed(lines)
    decreases |lines|
  {
    if |lines| > 0 {
      MultiLineFailsIff(lines[..|lines| - 1]);
      MultiLineRowSnoc(lines);
      SomeMalformedSnoc(lines);
    }
  }

  /** Line `i` carries property `p` and no later line does. */
  predicate LastCarrier(lines: seq<string>, p: string, i: int)
  {
    0 <= i < |lines| && Carries(lines[i], p) && forall j :: i < j < |lines| ==> !Carries(lines[j], p)
  }

  /** Some line carries property `p`. */
  predicate SomeCarrier(lines: seq<string>, p: string)
  {
    exists i :: 0 <= i < |lines| && Carries(lines[i], p)
  }

  /** A line carrying `p` among `lines` is one among all but the last, or the last. */
  lemma SomeCarrierSnoc(lines: seq<string>, p: string)
    requires |lines| > 0
    ensures SomeCarrier(lines, p) <==> SomeCarrier(lines[..|lines| - 1], p) || Carries(lines[|lines| - 1], p)
  {
    var init := lines[..|lines| - 1];
    if SomeCarrier(lines, p) && !Carries(lines[|lines| - 1], p) {
      var i :| 0 <= i < |lines| && Carries(lines[i], p);
      assert init[i] == lines[i];
    }
    if SomeCarrier(init, p) {
      var i :| 0 <= i < |init| && Carries(init[i], p);
      assert init[i] == lines[i];
    }
  }

  /** On success a property is present exactly when some line carries it. */
  lemma {:induction false} MultiLinePresent(lines: seq<string>, p: string)
    requires MultiLineRow(lines).Ok?
    ensures p in MultiLineRow(lines).value <==> SomeCarrier(lines, p)
    decreases |lines|
  {
    if |lines| > 0 {
      var n := |lines| - 1;
      var init := lines[..n];
      var prev := MultiLineRow(init).value;
      assert MultiLineRow(lines) == MultiLineStep(prev, lines[n]);
      MultiLinePresent(init, p);
      MultiLineStepEffect(prev, lines[n], p);
      SomeCarrierSnoc(lines, p);
    }
  }

  /**
   * On success the value of a present property is the text after the first
   * colon of the LAST line carrying it, whatever that line's section.
   */
  lemma {:induction false} MultiLineLastWins(lines: seq<string>, p: string)
    requires MultiLineRow(lines).Ok?
    requires p in MultiLineRow(lines).value
    ensures exists i :: LastCarrier(lines, p, i) && MultiLineRow(lines).value[p] == ValueOf(lines[i])
    decreases |lines|
  {
    assert |lines| > 0;
    var n := |lines| - 1;
    var init := lines[..n];
    assert MultiLineRow(init).Ok?;
    var prev := MultiLineRow(init).value;
    assert MultiLineRow(lines) == MultiLineStep(prev, lines[n]);
    MultiLineStepEffect(prev, lines[n], p);
    if Carries(lines[n], p) {
      assert LastCarrier(lines, p, n);
    } else {
      MultiLineLastWins(init, p);
      var i :| LastCarrier(init, p, i) && prev[p] == ValueOf(init[i]);
      LastCarrierExtend(lines, p, i);
    }
  }

  /** A last carrier among all lines but the final one stays last when the final line does not carry. */
  lemma LastCarrierExtend(lines: seq<string>, p: string, i: int)
    requires |lines| > 0
    requires LastCarrier(lines[..|lines| - 1], p, i)
    requires !Carries(lines[|lines| - 1], p)
    ensures LastCarrier(lines, p, i) && lines[i] == lines[..|lines| - 1][i]
  {
    var n := |lines| - 1;
    var init := lines[..n];
    forall j | i < j < |lines| ensures !Carries(lines[j], p) {
      if j < n {
        assert lines[j] == init[j];
      }
    }
  }

  /** Output with no colon anywhere, the empty output among it, gives one empty record. */
  lemma {:induction false} MultiLineNoColon(lines: seq<string>)
    requires forall i :: 0 <= i < |lines| ==> !HasColon(lines[i])
    ensures MultiLineRecords(lines) == Ok([map[]])
    decreases |lines|
  {
    if |lines| > 0 {
      var n := |lines| - 1;
      MultiLineNoColon(lines[..n]);
      assert !HasColon(lines[n]);
    }
  }

  /** The parsing branch of `_nmcli` once the exit code is zero. */
  function ParseOutput(stdout: string, fields: seq<string>, multiline: bool): (r: Result<seq<Record>>)
    ensures !multiline ==> r.Ok? && |r.value| <= |Lines(stdout)|
    ensures multiline && r.Ok? ==> |r.value| == 1
  {
    if multiline then MultiLineRecords(Lines(stdout)) else Ok(SingleLineRecords(Lines(stdout), fields))
  }

  /** The single-line loop: append a zipped record for every line with the right number of columns. */
  method ParseSingleLine(stdout: string, fields: seq<string>) returns (data: seq<Record>)
    ensures data == SingleLineRecords(Lines(stdout), fields)
  {
    var lines := Lines(stdout);
    data := [];
    var i := 0;
    while i < |lines|
      invariant 0 <= i <= |lines|
      invariant data == SingleLineRecords(lines[..i], fields)
    {
      var values := Split(lines[i], ':');
      if |values| == |fields| {
        var row := Zip(fields, values);
        data := data + [row];
      }
      assert lines[..i + 1][..i] == lines[..i];
      assert SingleLineRecords(lines[..i + 1], fields) == SingleLineRecords(lines[..i], fields) + LineRecords(lines[i], fields);
      i := i + 1;
    }
    assert lines[..i] == lines;
  }

  /** The multi-line loop: overwrite `row[prop]` line by line, then return the one record. */
  method ParseMultiLine(stdout: string) returns (r: Result<seq<Record>>)
    ensures r == MultiLineRecords(Lines(stdout))
  {
    var lines := Lines(stdout);
    var row: Record := map[];
    var i := 0;
    while i < |lines|
      invariant 0 <= i <= |lines|
      invariant MultiLineRow(lines[..i]) == Ok(row)
    {
      assert lines[..i + 1][..i] == lines[..i];
      var values := SplitOnce(lines[i], ':');
      if |values| == 2 {
        var multikey, value := values[0], values[1];
        var parts := Split(multikey, '.');
        if |parts| != 2 {
          MultiLineAbort(lines, i + 1);
          return Err(BadMultikey(multikey));
        }
        row := row[parts[1] := value];
      }
      i := i + 1;
    }
    assert lines[..i] == lines;
    r := Ok([row]);
  }

  /** Once the row has failed on some prefix of the lines, it stays failed. */
  lemma {:induction false} MultiLineAbort(lines: seq<string>, k: nat)
    requires k <= |lines|
    requires MultiLineRow(lines[..k]).Err?
    ensures MultiLineRow(lines) == MultiLineRow(lines[..k])
    decreases |lines|
  {
    if k < |lines| {
      var n := |lines| - 1;
      assert lines[..n][..k] == lines[..k];
      MultiLineAbort(lines[..n], k);
    } else {
      assert lines[..k] == lines;
    }
  }
}

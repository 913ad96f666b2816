/** _read_intake_form of app.py: the intake sheet, already read into a table
    of cell strings (empty cells filled with ""), is classified as a
    key-value sheet or a wide sheet with one column per party, and turned
    into one canonical record per party. */
module IntakeForm {
  import opened Strings
  import opened Decimal
  import opened Results
  import opened Intake

  /** The sheet as rows of cells, after fillna("") and str(). */
  type Table = seq<seq<string>>

  /** A sheet as a DataFrame holds it: every row has as many cells as the
      first, and there is at least one column when there is a row. */
  predicate IsFrame(t: Table) {
    t != [] ==> |t[0]| >= 1 && forall r :: 0 <= r < |t| ==> |t[r]| == |t[0]|
  }

  /** A trimmed cell that holds nothing: empty, or "nan"/"none" in any case. */
  predicate Blank(s: string) {
    s == "" || Lower(s) == "nan" || Lower(s) == "none"
  }

  // ---------------------------------------------------------------------------
  // Layout detection
  // ---------------------------------------------------------------------------

  datatype Layout =
    | KeyValue        // a "Field"/"Value" header, one party
    | WideWithHeader  // blank first cell: row 0 names the parties
    | WideNoHeader    // no header row: parties are "Client 1", "Client 2", ...

  /** The layout chosen from the first row's first two cells. */
  function DetectLayout(row0: seq<string>): (l: Layout)
    requires |row0| >= 1
    ensures l == KeyValue <==> |row0| >= 2 && Lower(Strip(row0[0])) == "field" && Lower(Strip(row0[1])) == "value"
    ensures l == WideWithHeader <==> l != KeyValue && Blank(Strip(row0[0]))
  {
    var col0 := Lower(Strip(row0[0]));
    var col1 := if |row0| > 1 then Lower(Strip(row0[1])) else "";
    if col0 == "field" && col1 == "value" then KeyValue
    else if col0 == "" || col0 == "nan" || col0 == "none" then WideWithHeader
    else WideNoHeader
  }

  /** The party labels of a wide sheet: the header cells after the first, or
      "Client 1" .. "Client n" for the n columns after the name column. */
  function PartyLabels(row0: seq<string>, layout: Layout): (labels: seq<string>)
    requires |row0| >= 1
    ensures |labels| == |row0| - 1
  {
    if layout == WideWithHeader then
      seq(|row0| - 1, i requires 0 <= i < |row0| - 1 => Strip(row0[i + 1]))
    else
      seq(|row0| - 1, i requires 0 <= i < |row0| - 1 => "Client " + NatToString(i + 1))
  }

  // ---------------------------------------------------------------------------
  // Key-value layout
  // ---------------------------------------------------------------------------

  /** A key-value row is skipped when its name is blank or repeats the header. */
  predicate SkippedLabel(name: string) {
    Blank(name) || Lower(name) == "field"
  }

  predicate TwoColumns(rows: Table) {
    forall r :: 0 <= r < |rows| ==> |rows[r]| >= 2
  }

  /** The raw record of the key-value rows after the header, row by row. */
  function KeyValueRaw(rows: Table): (raw: RawRecord)
    requires TwoColumns(rows)
    ensures raw.Valid()
  {
    if rows == [] then EmptyRaw
    else
      var prev := KeyValueRaw(rows[..|rows| - 1]);
      var row := rows[|rows| - 1];
      var name := Strip(row[0]);
      if SkippedLabel(name) then prev else prev.Put(name, Strip(row[1]))
  }

  /** The trimmed value of the last row labelled `name`, if there is one. */
  function LastKeyValue(rows: Table, name: string): Option<string>
    requires TwoColumns(rows)
  {
    if rows == [] then None
    else
      var row := rows[|rows| - 1];
      if Strip(row[0]) == name && !SkippedLabel(name) then Some(Strip(row[1]))
      else LastKeyValue(rows[..|rows| - 1], name)
  }

  /** Every name of a kept row is in the raw record, holding the value of
      its last row; nothing else is. */
  lemma {:induction false} KeyValueLastWins(rows: Table, name: string)
    requires TwoColumns(rows)
    ensures name in KeyValueRaw(rows).values <==> LastKeyValue(rows, name).Some?
    ensures name in KeyValueRaw(rows).values ==>
      KeyValueRaw(rows).values[name] == LastKeyValue(rows, name).value
  {
    if rows != [] {
      KeyValueLastWins(rows[..|rows| - 1], name);
    }
  }

  // ---------------------------------------------------------------------------
  // Wide layout
  // ---------------------------------------------------------------------------

  ghost predicate AllValid(raws: seq<RawRecord>) {
    forall i :: 0 <= i < |raws| ==> raws[i].Valid()
  }

  predicate Width(rows: Table, w: nat) {
    forall k :: 0 <= k < |rows| ==> |rows[k]| == w
  }

  /** Party i's raw record after one data row. A non-blank cell is recorded;
      a blank cell of a later party copies party 0's value (party 0 as it is
      after this row) when the party lacks the name and party 0 has it. */
  function RowParty(raws: seq<RawRecord>, row: seq<string>, i: nat): (r: RawRecord)
    requires AllValid(raws) && i < |raws| && |row| == |raws| + 1
    ensures r.Valid()
    decreases i
  {
    var name := Strip(row[0]);
    var v := Strip(row[i + 1]);
    if Blank(name) then raws[i]
    else if !Blank(v) then raws[i].Put(name, v)
    else if i > 0 && name !in raws[i].values && name in RowParty(raws, row, 0).values then
      raws[i].Put(name, RowParty(raws, row, 0).values[name])
    else raws[i]
  }

  /** All parties' raw records after one data row. */
  function ApplyRow(raws: seq<RawRecord>, row: seq<string>): (r: seq<RawRecord>)
    requires AllValid(raws) && |row| == |raws| + 1
    ensures |r| == |raws| && AllValid(r)
  {
    seq(|raws|, i requires 0 <= i < |raws| => RowParty(raws, row, i))
  }

  /** The n parties' raw records after the data rows, row by row. */
  function WideRaws(rows: Table, n: nat): (r: seq<RawRecord>)
    requires Width(rows, n + 1)
    ensures |r| == n && AllValid(r)
  {
    if rows == [] then seq(n, _ => EmptyRaw)
    else ApplyRow(WideRaws(rows[..|rows| - 1], n), rows[|rows| - 1])
  }

  /** Row `row` holds a value of party i's own for `name`. */
  predicate Gives(row: seq<string>, i: nat, name: string)
    requires i + 1 < |row|
  {
    !Blank(name) && Strip(row[0]) == name && !Blank(Strip(row[i + 1]))
  }

  /** Party i's own value for `name` in the last row that gives one. */
  function LastGiven(rows: Table, n: nat, i: nat, name: string): Option<string>
    requires i < n && Width(rows, n + 1)
  {
    if rows == [] then None
    else
      var row := rows[|rows| - 1];
      if Gives(row, i, name) then Some(Strip(row[i + 1]))
      else LastGiven(rows[..|rows| - 1], n, i, name)
  }

  /** Party i's own value for `name` in the first row that gives one. */
  function FirstGiven(rows: Table, n: nat, i: nat, name: string): Option<string>
    requires i < n && Width(rows, n + 1)
  {
    if rows == [] then None
    else
      var earlier := FirstGiven(rows[..|rows| - 1], n, i, name);
      var row := rows[|rows| - 1];
      if earlier.Some? then earlier
      else if Gives(row, i, name) then Some(Strip(row[i + 1]))
      else None
  }

  lemma {:induction false} FirstGivenIffLastGiven(rows: Table, n: nat, i: nat, name: string)
    requires i < n && Width(rows, n + 1)
    ensures FirstGiven(rows, n, i, name).Some? <==> LastGiven(rows, n, i, name).Some?
  {
    if rows != [] {
      FirstGivenIffLastGiven(rows[..|rows| - 1], n, i, name);
    }
  }

  /** What party i holds for `name` once all rows are read: its own last
      value; failing that, for a later party, the value party 0 received first. */
  function Expected(rows: Table, n: nat, i: nat, name: string): Option<string>
    requires i < n && Width(rows, n + 1)
  {
    var own := LastGiven(rows, n, i, name);
    if own.Some? || i == 0 then own else FirstGiven(rows, n, 0, name)
  }

  /** The carry-forward rule over a whole sheet: a party's own value always
      wins (the last one given); party 0 holds only its own values; a later
      party lacking values of its own for a name holds it exactly when party
      0 does, with the value party 0 had when it first received it. */
  lemma {:induction false} WidePartyValues(rows: Table, n: nat, i: nat, name: string)
    requires i < n && Width(rows, n + 1)
    ensures var raw := WideRaws(rows, n)[i];
      && (name in raw.values <==> Expected(rows, n, i, name).Some?)
      && (name in raw.values ==> raw.values[name] == Expected(rows, n, i, name).value)
  {
    if rows != [] {
      var prefix := rows[..|rows| - 1];
      var row := rows[|rows| - 1];
      var raws := WideRaws(prefix, n);
      WideRawsStep(rows, n, i);
      WidePartyValues(prefix, n, i, name);
      RowPartyValue(raws, row, i, name);
      assert LastGiven(rows, n, i, name) ==
        if Gives(row, i, name) then Some(Strip(row[i + 1])) else LastGiven(prefix, n, i, name);
      if i > 0 {
        WideRawsStep(rows, n, 0);
        WidePartyValues(prefix, n, 0, name);
        FirstGivenIffLastGiven(prefix, n, 0, name);
        RowPartyValue(raws, row, 0, name);
        assert FirstGiven(rows, n, 0, name) ==
          if FirstGiven(prefix, n, 0, name).Some? then FirstGiven(prefix, n, 0, name)
          else if Gives(row, 0, name) then Some(Strip(row[1])) else None;
        assert LastGiven(rows, n, 0, name) ==
          if Gives(row, 0, name) then Some(Strip(row[1])) else LastGiven(prefix, n, 0, name);
      }
    }
  }

  /** Party i after the last row is RowParty of the parties before it. */
  lemma WideRawsStep(rows: Table, n: nat, i: nat)
    requires i < n && Width(rows, n + 1) && rows != []
    ensures WideRaws(rows, n)[i] == RowParty(WideRaws(rows[..|rows| - 1], n), rows[|rows| - 1], i)
  {
  }

  /** What one row does to party i's entry for `name`. */
  lemma RowPartyValue(raws: seq<RawRecord>, row: seq<string>, i: nat, name: string)
    requires AllValid(raws) && i < |raws| && |row| == |raws| + 1
    ensures var r, before, r0 := RowParty(raws, row, i).values, raws[i].values, RowParty(raws, row, 0).values;
      if Gives(row, i, name) then name in r && r[name] == Strip(row[i + 1])
      else if i > 0 && !Blank(name) && Strip(row[0]) == name && name !in before && name in r0 then
        name in r && r[name] == r0[name]
      else (name in r <==> name in before) && (name in r ==> r[name] == before[name])
  {
  }

  /** Every value a party holds is non-blank: blank cells are never recorded. */
  lemma WideValuesNotBlank(rows: Table, n: nat, i: nat, name: string)
    requires i < n && Width(rows, n + 1)
    requires name in WideRaws(rows, n)[i].values
    ensures !Blank(WideRaws(rows, n)[i].values[name])
  {
    WidePartyValues(rows, n, i, name);
    GivenNotBlank(rows, n, i, name);
    GivenNotBlank(rows, n, 0, name);
  }

  lemma {:induction false} GivenNotBlank(rows: Table, n: nat, i: nat, name: string)
    requires i < n && Width(rows, n + 1)
    ensures LastGiven(rows, n, i, name).Some? ==> !Blank(LastGiven(rows, n, i, name).value)
    ensures FirstGiven(rows, n, i, name).Some? ==> !Blank(FirstGiven(rows, n, i, name).value)
  {
    if rows != [] {
      GivenNotBlank(rows[..|rows| - 1], n, i, name);
    }
  }

  /** The indices of the parties with a non-empty raw record, in order. */
  function NonEmpty(raws: seq<RawRecord>): (idx: seq<nat>)
    ensures forall k :: 0 <= k < |idx| ==> idx[k] < |raws| && raws[idx[k]].labels != []
    ensures forall k, l :: 0 <= k < l < |idx| ==> idx[k] < idx[l]
    ensures forall i :: 0 <= i < |raws| && raws[i].labels != [] ==> i in idx
  {
    if raws == [] then []
    else
      var last := |raws| - 1;
      NonEmpty(raws[..last]) + (if raws[last].labels != [] then [last] else [])
  }

  /** A party's canonical record, tagged with its column name. */
  function Tagged(raw: RawRecord, name: string): (r: Record)
    requires raw.Valid()
    ensures "__client_label__" in r && r["__client_label__"] == name
  {
    Normalize(raw.Items())["__client_label__" := name]
  }

  /** The raw records of the non-empty parties, each with its column's name,
      in column order. */
  function Given(raws: seq<RawRecord>, labels: seq<string>): (g: seq<(RawRecord, string)>)
    requires |labels| == |raws|
    ensures AllValid(raws) ==> forall k :: 0 <= k < |g| ==> g[k].0.Valid()
  {
    if raws == [] then []
    else
      var last := |raws| - 1;
      Given(raws[..last], labels[..last])
        + (if raws[last].labels != [] then [(raws[last], labels[last])] else [])
  }

  /** The tagged canonical records of the non-empty parties, in column order. */
  function Parties(raws: seq<RawRecord>, labels: seq<string>): seq<Record>
    requires AllValid(raws) && |labels| == |raws|
  {
    var g := Given(raws, labels);
    seq(|g|, k requires 0 <= k < |g| => Tagged(g[k].0, g[k].1))
  }

  /** The parties kept are exactly the non-empty ones, in column order, each
      with its own column's name. */
  lemma {:induction false} GivenAreNonEmpty(raws: seq<RawRecord>, labels: seq<string>)
    requires |labels| == |raws|
    ensures var g, idx := Given(raws, labels), NonEmpty(raws);
      && |g| == |idx|
      && forall k :: 0 <= k < |g| ==> g[k] == (raws[idx[k]], labels[idx[k]])
  {
    if raws != [] {
      var last := |raws| - 1;
      var g0, idx0 := Given(raws[..last], labels[..last]), NonEmpty(raws[..last]);
      GivenAreNonEmpty(raws[..last], labels[..last]);
      var g, idx := Given(raws, labels), NonEmpty(raws);
      var given := raws[last].labels != [];
      assert g == g0 + (if given then [(raws[last], labels[last])] else []);
      assert idx == idx0 + (if given then [last] else []);
      forall k | 0 <= k < |g| ensures g[k] == (raws[idx[k]], labels[idx[k]]) {
        if k < |g0| {
          var j := idx0[k];
          assert g[k] == g0[k] && idx[k] == j && j < last;
          assert raws[..last][j] == raws[j] && labels[..last][j] == labels[j];
        }
      }
    }
  }

  /** The parties of the first i columns. */
  ghost function PartiesUpTo(raws: seq<RawRecord>, labels: seq<string>, i: nat): seq<Record>
    requires AllValid(raws) && |labels| == |raws| && i <= |raws|
  {
    Parties(raws[..i], labels[..i])
  }

  /** Taking in one more column appends its party when it is non-empty. */
  lemma PartiesSnoc(raws: seq<RawRecord>, labels: seq<string>, i: nat)
    requires AllValid(raws) && |labels| == |raws| && i < |raws|
    ensures PartiesUpTo(raws, labels, i + 1) == PartiesUpTo(raws, labels, i)
      + (if raws[i].labels != [] then [Tagged(raws[i], labels[i])] else [])
  {
    GivenSnoc(raws, labels, i);
  }

  /** A non-empty column adds its tagged party to the parties so far. */
  lemma PartiesTaken(raws: seq<RawRecord>, labels: seq<string>, i: nat, sofar: seq<Record>, party: Record)
    requires AllValid(raws) && |labels| == |raws| && i < |raws|
    requires sofar == PartiesUpTo(raws, labels, i)
    requires raws[i].labels != [] && party == Tagged(raws[i], labels[i])
    ensures PartiesUpTo(raws, labels, i + 1) == sofar + [party]
  {
    PartiesSnoc(raws, labels, i);
  }

  /** An empty column adds no party. */
  lemma PartiesSkipped(raws: seq<RawRecord>, labels: seq<string>, i: nat, sofar: seq<Record>)
    requires AllValid(raws) && |labels| == |raws| && i < |raws|
    requires sofar == PartiesUpTo(raws, labels, i)
    requires raws[i].labels == []
    ensures PartiesUpTo(raws, labels, i + 1) == sofar
  {
    PartiesSnoc(raws, labels, i);
  }

  /** All the columns taken in give the parties of the sheet. */
  lemma PartiesUpToAll(raws: seq<RawRecord>, labels: seq<string>)
    requires AllValid(raws) && |labels| == |raws|
    ensures PartiesUpTo(raws, labels, |raws|) == Parties(raws, labels)
  {
    assert raws[..|raws|] == raws;
    assert labels[..|raws|] == labels;
  }

  lemma GivenSnoc(raws: seq<RawRecord>, labels: seq<string>, i: nat)
    requires |labels| == |raws| && i < |raws|
    ensures Given(raws[..i + 1], labels[..i + 1])
      == Given(raws[..i], labels[..i]) + (if raws[i].labels != [] then [(raws[i], labels[i])] else [])
  {
    assert raws[..i + 1][..i] == raws[..i] && raws[..i + 1][i] == raws[i];
    assert labels[..i + 1][..i] == labels[..i] && labels[..i + 1][i] == labels[i];
  }

  /** The parties returned are exactly the non-empty ones, in column order,
      each tagged with its own column's name. */
  lemma PartiesAreNonEmpty(raws: seq<RawRecord>, labels: seq<string>)
    requires AllValid(raws) && |labels| == |raws|
    ensures var p, idx := Parties(raws, labels), NonEmpty(raws);
      && |p| == |idx|
      && forall k :: 0 <= k < |p| ==> p[k] == Tagged(raws[idx[k]], labels[idx[k]])
  {
    GivenAreNonEmpty(raws, labels);
  }

  // ---------------------------------------------------------------------------
  // The whole reader
  // ---------------------------------------------------------------------------

  /** _read_intake_form on a sheet. Reading the first row of an empty sheet
      fails with an IndexError. */
  function ReadIntake(t: Table): Result<seq<Record>>
    requires IsFrame(t)
  {
    if t == [] then Err(IndexError)
    else
      var layout := DetectLayout(t[0]);
      if layout == KeyValue then
        Ok([Normalize(KeyValueRaw(t[1..]).Items())])
      else
        var n := |t[0]| - 1;
        var rows := if layout == WideWithHeader then t[1..] else t;
        Ok(Parties(WideRaws(rows, n), PartyLabels(t[0], layout)))
  }

  /** A key-value sheet gives exactly one record, of the rows after the header. */
  lemma KeyValueOneRecord(t: Table)
    requires IsFrame(t) && t != [] && DetectLayout(t[0]) == KeyValue
    ensures ReadIntake(t).Ok? && |ReadIntake(t).value| == 1
  {
  }

  /** A wide sheet gives at most one record per party column, each tagged with
      the name of its column: the header cell when the first cell is blank,
      "Client <column number>" otherwise. */
  lemma WideRecordLabels(t: Table, k: nat)
    requires IsFrame(t) && t != [] && DetectLayout(t[0]) != KeyValue
    ensures var r := ReadIntake(t);
      && r.Ok? && |r.value| <= |t[0]| - 1
      && (k < |r.value| ==>
            && "__client_label__" in r.value[k]
            && r.value[k]["__client_label__"] in PartyLabels(t[0], DetectLayout(t[0])))
  {
    var layout := DetectLayout(t[0]);
    var rows := if layout == WideWithHeader then t[1..] else t;
    WideIntake(t);
    PartiesLabels(WideRaws(rows, |t[0]| - 1), PartyLabels(t[0], layout), k);
  }

  /** At most one party per column, each tagged with one of the column names. */
  lemma PartiesLabels(raws: seq<RawRecord>, labels: seq<string>, k: nat)
    requires AllValid(raws) && |labels| == |raws|
    ensures var p := Parties(raws, labels);
      && |p| <= |raws|
      && (k < |p| ==> "__client_label__" in p[k] && p[k]["__client_label__"] in labels)
  {
    var p := Parties(raws, labels);
    PartiesAreNonEmpty(raws, labels);
    var idx := NonEmpty(raws);
    NonEmptyCount(idx, |raws|);
    if k < |idx| {
      assert p[k] == Tagged(raws[idx[k]], labels[idx[k]]);
    }
  }

  /** A strictly increasing list of indices below n has at most n entries. */
  lemma {:induction false} NonEmptyCount(idx: seq<nat>, n: nat)
    requires forall k :: 0 <= k < |idx| ==> idx[k] < n
    requires forall k, l :: 0 <= k < l < |idx| ==> idx[k] < idx[l]
    ensures |idx| <= n
    decreases n
  {
    if idx != [] {
      var m := idx[|idx| - 1];
      assert forall k :: 0 <= k < |idx| - 1 ==> idx[k] < m;
      NonEmptyCount(idx[..|idx| - 1], m);
    }
  }

  // ---------------------------------------------------------------------------
  // The reader as the source runs it
  // ---------------------------------------------------------------------------

  /** The key-value loop over the rows after the header. */
  method ReadKeyValue(rows: Table) returns (raw: RawRecord)
    requires TwoColumns(rows)
    ensures raw == KeyValueRaw(rows)
  {
    raw := EmptyRaw;
    var r := 0;
    while r < |rows|
      invariant 0 <= r <= |rows|
      invariant raw == KeyValueRaw(rows[..r])
    {
      var name := Strip(rows[r][0]);
      var val := Strip(rows[r][1]);
      if name != "" && Lower(name) != "nan" && Lower(name) != "none" && Lower(name) != "field" {
        raw := raw.Put(name, val);
      }
      assert rows[..r + 1][..r] == rows[..r];
      r := r + 1;
    }
    assert rows[..r] == rows;
  }

  /** Party i's cell of a row with a name, given party 0 as it is after the row. */
  lemma RowPartyCell(raws0: seq<RawRecord>, row: seq<string>, i: nat, first: RawRecord)
    requires AllValid(raws0) && i < |raws0| && |row| == |raws0| + 1 && !Blank(Strip(row[0]))
    requires i > 0 ==> first == RowParty(raws0, row, 0)
    ensures var name, v := Strip(row[0]), Strip(row[i + 1]);
      RowParty(raws0, row, i) ==
        if !Blank(v) then raws0[i].Put(name, v)
        else if i > 0 && name !in raws0[i].values && name in first.values then
          raws0[i].Put(name, first.values[name])
        else raws0[i]
  {
  }

  /** One data row of the wide layout, cell by cell. */
  method ReadWideRow(raws0: seq<RawRecord>, row: seq<string>) returns (raws: seq<RawRecord>)
    requires AllValid(raws0) && |row| == |raws0| + 1
    ensures raws == ApplyRow(raws0, row)
  {
    raws := raws0;
    var name := Strip(row[0]);
    if name == "" || Lower(name) == "nan" || Lower(name) == "none" {
      assert raws == ApplyRow(raws0, row);
      return;
    }
    var n := |raws0|;
    var i := 0;
    while i < n
      invariant 0 <= i <= n && raws == RowPrefix(raws0, row, i)
    {
      ghost var before, cell := raws, RowParty(raws0, row, i);
      RowPartyCell(raws0, row, i, raws[0]);
      RowPrefixStep(raws0, row, i);
      var v := Strip(row[i + 1]);
      if v != "" && Lower(v) != "nan" && Lower(v) != "none" {
        raws := raws[i := raws[i].Put(name, v)];
      } else if i > 0 && name !in raws[i].values && name in raws[0].values {
        raws := raws[i := raws[i].Put(name, raws[0].values[name])];
      } else {
        assert cell == raws[i];
      }
      assert raws == before[i := cell];
      i := i + 1;
    }
  }

  /** The parties' records part-way through a row: the first i updated. */
  function RowPrefix(raws0: seq<RawRecord>, row: seq<string>, i: nat): (r: seq<RawRecord>)
    requires AllValid(raws0) && |row| == |raws0| + 1 && i <= |raws0|
    ensures |r| == |raws0|
  {
    seq(|raws0|, j requires 0 <= j < |raws0| => if j < i then RowParty(raws0, row, j) else raws0[j])
  }

  lemma RowPrefixStep(raws0: seq<RawRecord>, row: seq<string>, i: nat)
    requires AllValid(raws0) && |row| == |raws0| + 1 && i < |raws0|
    ensures RowPrefix(raws0, row, i + 1) == RowPrefix(raws0, row, i)[i := RowParty(raws0, row, i)]
    ensures RowPrefix(raws0, row, i)[i] == raws0[i]
    ensures i > 0 ==> RowPrefix(raws0, row, i)[0] == RowParty(raws0, row, 0)
    ensures RowPrefix(raws0, row, |raws0|) == ApplyRow(raws0, row)
  {
    assert RowPrefix(raws0, row, |raws0|) == ApplyRow(raws0, row);
  }

  /** The wide layout's loop over the data rows. */
  method ReadWideRows(rows: Table, n: nat) returns (raws: seq<RawRecord>)
    requires Width(rows, n + 1)
    ensures raws == WideRaws(rows, n)
  {
    raws := seq(n, _ => EmptyRaw);
    var r := 0;
    while r < |rows|
      invariant 0 <= r <= |rows|
      invariant raws == WideRaws(rows[..r], n)
    {
      raws := ReadWideRow(raws, rows[r]);
      assert rows[..r + 1][..r] == rows[..r];
      r := r + 1;
    }
    assert rows[..r] == rows;
  }

  /** One party's canonical record, tagged with its column name. */
  method TagParty(raw: RawRecord, name: string) returns (party: Record)
    requires raw.Valid()
    ensures party == Tagged(raw, name)
  {
    party := NormalizeFields(raw);
    party := party["__client_label__" := name];
  }

  /** The loop that normalizes and tags every non-empty party. */
  method CollectParties(raws: seq<RawRecord>, labels: seq<string>) returns (result: seq<Record>)
    requires AllValid(raws) && |labels| == |raws|
    ensures result == Parties(raws, labels)
  {
    result := [];
    var i := 0;
    while i < |raws|
      invariant 0 <= i <= |raws|
      invariant result == PartiesUpTo(raws, labels, i)
    {
      if raws[i].labels != [] {
        var party := TagParty(raws[i], labels[i]);
        PartiesTaken(raws, labels, i, result, party);
        result := result + [party];
      } else {
        PartiesSkipped(raws, labels, i, result);
      }
      i := i + 1;
    }
    PartiesUpToAll(raws, labels);
  }

  /** _read_intake_form */
  method ReadIntakeForm(t: Table) returns (r: Result<seq<Record>>)
    requires IsFrame(t)
    ensures r == ReadIntake(t)
  {
    if t == [] {
      return Err(IndexError);
    }
    var layout := DetectLayout(t[0]);
    if layout == KeyValue {
      var raw := ReadKeyValue(t[1..]);
      var norm := NormalizeFields(raw);
      return Ok([norm]);
    }
    var parties := ReadWideSheet(t, layout);
    return Ok(parties);
  }

  /** The wide branch of _read_intake_form: party columns, then one pass over
      the rows, then the non-empty parties. */
  method ReadWideSheet(t: Table, layout: Layout) returns (parties: seq<Record>)
    requires IsFrame(t) && t != [] && layout == DetectLayout(t[0]) && layout != KeyValue
    ensures ReadIntake(t) == Ok(parties)
  {
    var labels := PartyLabels(t[0], layout);
    var rows := if layout == WideWithHeader then t[1..] else t;
    var raws := ReadWideRows(rows, |labels|);
    parties := CollectParties(raws, labels);
    WideIntake(t);
  }

  /** On a wide sheet the reader returns the parties of the party rows. */
  lemma WideIntake(t: Table)
    requires IsFrame(t) && t != [] && DetectLayout(t[0]) != KeyValue
    ensures var layout := DetectLayout(t[0]);
      var rows := if layout == WideWithHeader then t[1..] else t;
      ReadIntake(t) == Ok(Parties(WideRaws(rows, |t[0]| - 1), PartyLabels(t[0], layout)))
  {
  }
}

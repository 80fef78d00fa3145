/** pipelineScalingCode/build_matrix.py: a 0/1 feature matrix with a row per
    admission and a column per frequent diagnosis code ("Dx_" + code) and
    per frequent drug ("Rx_" + drug). */
module FeatureMatrix {
  import opened Text
  import opened Clinical

  /** One (admission, feature) record: an icd_code or a drug name. */
  datatype Record = Record(hadmId: nat, key: string)

  /** A table with admission ids as its rows and named columns: cells[i][j]
      is the value of row i in column j. */
  datatype Matrix = Matrix(rows: seq<nat>, columns: seq<string>, cells: seq<seq<int>>)

  predicate WellShaped(m: Matrix) {
    |m.cells| == |m.rows| && forall i :: 0 <= i < |m.cells| ==> |m.cells[i]| == |m.columns|
  }

  /** Every cell is 0 or 1. */
  predicate Binary(m: Matrix) {
    forall i, j :: 0 <= i < |m.cells| && 0 <= j < |m.cells[i]| ==> m.cells[i][j] == 0 || m.cells[i][j] == 1
  }

  /** The (hadm_id, icd_code) pairs of diagnoses_icd. */
  function DiagnosisRecords(diags: seq<DiagnosisRow>): seq<Record> {
    seq(|diags|, k requires 0 <= k < |diags| => Record(diags[k].hadmId, diags[k].icdCode))
  }

  /** The (hadm_id, drug) pairs of prescriptions. */
  function PrescriptionRecords(rx: seq<Prescription>): seq<Record> {
    seq(|rx|, k requires 0 <= k < |rx| => Record(rx[k].hadmId, rx[k].drug))
  }

  /** The number of records carrying the key: its value_counts() entry. */
  function Count(records: seq<Record>, key: string): nat
    decreases |records|
  {
    if records == [] then 0
    else Count(records[..|records| - 1], key) + (if records[|records| - 1].key == key then 1 else 0)
  }

  /** The distinct keys of the records. */
  function Keys(records: seq<Record>): seq<string> {
    var keys := seq(|records|, k requires 0 <= k < |records| => records[k].key);
    Distinct(keys)
  }

  /** The distinct admission ids of the records. */
  function Ids(records: seq<Record>): seq<nat> {
    var ids: seq<nat> := seq(|records|, k requires 0 <= k < |records| => records[k].hadmId);
    Distinct(ids)
  }

  // ---------------------------------------------------------------- top keys

  /** value_counts().head(n).index: n distinct keys of the records (all of
      them when there are fewer), none less frequent than a key left out. */
  predicate IsTop(top: seq<string>, records: seq<Record>, n: nat) {
    var keys := Keys(records);
    && NoDups(top)
    && (forall c :: c in top ==> c in keys)
    && |top| == (if |keys| < n then |keys| else n)
    && (forall c, d :: c in top && d in keys && d !in top ==> Count(records, d) <= Count(records, c))
  }

  /** A candidate no other candidate outnumbers, the first one on a tie. */
  function MostFrequent(records: seq<Record>, cands: seq<string>): (m: string)
    requires cands != []
    ensures m in cands
    ensures forall d :: d in cands ==> Count(records, d) <= Count(records, m)
    decreases |cands|
  {
    if |cands| == 1 then cands[0]
    else
      var rest := MostFrequent(records, cands[1..]);
      if Count(records, rest) <= Count(records, cands[0]) then cands[0] else rest
  }

  /** The candidates other than x, in order. */
  function Without(cands: seq<string>, x: string): (r: seq<string>)
    ensures forall y :: y in r <==> y in cands && y != x
    ensures NoDups(cands) ==> NoDups(r)
    ensures NoDups(cands) && x in cands ==> |r| == |cands| - 1
    ensures x !in cands ==> r == cands
    decreases |cands|
  {
    if cands == [] then []
    else if cands[0] == x then
      assert NoDups(cands) ==> x !in cands[1..];
      Without(cands[1..], x)
    else
      assert NoDups(cands) ==> cands[0] !in cands[1..];
      [cands[0]] + Without(cands[1..], x)
  }

  /** The n most frequent candidates, picked one at a time. */
  function Select(records: seq<Record>, cands: seq<string>, n: nat): (top: seq<string>)
    requires NoDups(cands)
    ensures NoDups(top)
    ensures forall c :: c in top ==> c in cands
    ensures |top| == if |cands| < n then |cands| else n
    ensures forall c, d :: c in top && d in cands && d !in top ==> Count(records, d) <= Count(records, c)
    decreases n
  {
    if n == 0 || cands == [] then []
    else
      var m := MostFrequent(records, cands);
      var rest := Without(cands, m);
      var top := [m] + Select(records, rest, n - 1);
      assert forall c :: c in top && c != m ==> c in rest;
      top
  }

  /** One top-n choice value_counts can make: so IsTop can always be met. */
  function TopKeys(records: seq<Record>, n: nat): (top: seq<string>)
    ensures IsTop(top, records, n)
  {
    Select(records, Keys(records), n)
  }

  // ---------------------------------------------------------------- pivot

  /** df[df[key].isin(top)]: the records whose key is among the top keys. */
  function Kept(records: seq<Record>, top: seq<string>): seq<Record>
    decreases |records|
  {
    if records == [] then []
    else
      var last := records[|records| - 1];
      Kept(records[..|records| - 1], top) + (if last.key in top then [last] else [])
  }

  /** The filter keeps exactly the records with a top key. */
  lemma {:induction false} KeptExactly(records: seq<Record>, top: seq<string>, r: Record)
    ensures r in Kept(records, top) <==> r in records && r.key in top
    decreases |records|
  {
    if records != [] {
      KeptExactly(records[..|records| - 1], top, r);
      assert records == records[..|records| - 1] + [records[|records| - 1]];
    }
  }

  /** pivot_table(values=1, fill_value=0, aggfunc='max') over the kept
      records, with the given listings of its rows and columns. */
  function Pivot(kept: seq<Record>, rows: seq<nat>, columns: seq<string>): (m: Matrix)
    ensures m.rows == rows && m.columns == columns
    ensures WellShaped(m) && Binary(m)
  {
    Matrix(rows, columns,
           seq(|rows|, i requires 0 <= i < |rows| =>
             seq(|columns|, j requires 0 <= j < |columns| =>
               if Record(rows[i], columns[j]) in kept then 1 else 0)))
  }

  /** Ascending admission ids, no two alike. */
  predicate IdsAscending(s: seq<nat>) {
    forall i, j :: 0 <= i < j < |s| ==> s[i] < s[j]
  }

  /** Python's order on strings: code point by code point, a proper prefix
      first. */
  predicate StringLess(a: string, b: string)
    decreases |a|
  {
    if a == [] then b != []
    else b != [] && (a[0] < b[0] || (a[0] == b[0] && StringLess(a[1..], b[1..])))
  }

  predicate KeysAscending(s: seq<string>) {
    forall i, j :: 0 <= i < j < |s| ==> StringLess(s[i], s[j])
  }

  /** pandas lists the index of a pivot or of an outer merge in ascending
      order, each id once; sortIds is that listing. */
  ghost predicate SortsIds(sortIds: seq<nat> -> seq<nat>) {
    forall v :: IdsAscending(sortIds(v)) && forall x :: x in sortIds(v) <==> x in v
  }

  /** The same for the columns of a pivot. */
  ghost predicate SortsKeys(sortKeys: seq<string> -> seq<string>) {
    forall v :: KeysAscending(sortKeys(v)) && forall x :: x in sortKeys(v) <==> x in v
  }

  /** Keep the records with a top key and pivot them. */
  function PivotTable(records: seq<Record>, top: seq<string>, sortIds: seq<nat> -> seq<nat>,
                      sortKeys: seq<string> -> seq<string>): Matrix {
    var kept := Kept(records, top);
    Pivot(kept, sortIds(Ids(kept)), sortKeys(Keys(kept)))
  }

  /** Prefix every column name with the tag. */
  function Prefixed(m: Matrix, tag: string): Matrix {
    m.(columns := seq(|m.columns|, j requires 0 <= j < |m.columns| => tag + m.columns[j]))
  }

  // ---------------------------------------------------------------- merge

  /** The cells of admission h in m, or zeros when m has no row for it. */
  function RowOf(m: Matrix, h: nat): (row: seq<int>)
    requires WellShaped(m)
    ensures |row| == |m.columns|
  {
    if h in m.rows then m.cells[FirstIndex(m.rows, h)] else seq(|m.columns|, _ => 0)
  }

  /** pd.merge(left, right, on='hadm_id', how='outer').fillna(0): a row for
      every admission of either side, the left columns then the right ones,
      and 0 where a side has no row. */
  function OuterMerge(left: Matrix, right: Matrix, sortIds: seq<nat> -> seq<nat>): (m: Matrix)
    requires WellShaped(left) && WellShaped(right)
    ensures WellShaped(m)
    ensures m.columns == left.columns + right.columns
  {
    var rows := sortIds(left.rows + right.rows);
    Matrix(rows, left.columns + right.columns,
           seq(|rows|, i requires 0 <= i < |rows| => RowOf(left, rows[i]) + RowOf(right, rows[i])))
  }

  /** The diagnosis side: the top codes pivoted, named "Dx_" + code. */
  function DiagnosisMatrix(diags: seq<DiagnosisRow>, topCodes: seq<string>, sortIds: seq<nat> -> seq<nat>,
                           sortKeys: seq<string> -> seq<string>): Matrix {
    Prefixed(PivotTable(DiagnosisRecords(diags), topCodes, sortIds, sortKeys), "Dx_")
  }

  /** The prescription side: the top drugs pivoted, named "Rx_" + drug. */
  function PrescriptionMatrix(rx: seq<Prescription>, topDrugs: seq<string>, sortIds: seq<nat> -> seq<nat>,
                              sortKeys: seq<string> -> seq<string>): Matrix {
    Prefixed(PivotTable(PrescriptionRecords(rx), topDrugs, sortIds, sortKeys), "Rx_")
  }

  /** final_matrix. */
  function BuildMatrix(diags: seq<DiagnosisRow>, rx: seq<Prescription>, topCodes: seq<string>, topDrugs: seq<string>,
                       sortIds: seq<nat> -> seq<nat>, sortKeys: seq<string> -> seq<string>): Matrix {
    OuterMerge(DiagnosisMatrix(diags, topCodes, sortIds, sortKeys),
               PrescriptionMatrix(rx, topDrugs, sortIds, sortKeys), sortIds)
  }

  // ----- What the matrix promises -----

  lemma {:induction false} StringLessIrreflexive(a: string)
    ensures !StringLess(a, a)
    decreases |a|
  {
    if a != [] {
      StringLessIrreflexive(a[1..]);
    }
  }

  /** A listing in ascending string order names each key once. */
  lemma KeysAscendingNoDups(s: seq<string>)
    requires KeysAscending(s)
    ensures NoDups(s)
  {
    forall i, j | 0 <= i < j < |s| ensures s[i] != s[j] {
      if s[i] == s[j] {
        StringLessIrreflexive(s[i]);
      }
    }
  }

  /** A sequence holds no more distinct values than items, and exactly as
      many when no two are alike. */
  lemma {:induction false} DistinctCount<T>(s: seq<T>)
    ensures |set x | x in s| <= |s|
    ensures NoDups(s) ==> |set x | x in s| == |s|
    decreases |s|
  {
    if s != [] {
      var p := s[..|s| - 1];
      DistinctCount(p);
      assert s == p + [s[|s| - 1]];
      assert (set x | x in s) == (set x | x in p) + {s[|s| - 1]};
    }
  }

  /** A listing of distinct values all taken from b is no longer than b. */
  lemma NoLonger<T>(a: seq<T>, b: seq<T>)
    requires NoDups(a)
    requires forall x :: x in a ==> x in b
    ensures |a| <= |b|
  {
    var sa := set x | x in a;
    var sb := set x | x in b;
    DistinctCount(a);
    DistinctCount(b);
    assert sb == sa + (sb - sa);
    assert sa * (sb - sa) == {};
  }

  /** A pivot cell is 1 exactly when some record of that admission carries
      that top key, and 0 otherwise: a key recorded twice still gives 1. */
  lemma PivotTableCell(records: seq<Record>, top: seq<string>, sortIds: seq<nat> -> seq<nat>,
                       sortKeys: seq<string> -> seq<string>, i: nat, j: nat)
    requires i < |PivotTable(records, top, sortIds, sortKeys).rows|
    requires j < |PivotTable(records, top, sortIds, sortKeys).columns|
    ensures var m := PivotTable(records, top, sortIds, sortKeys);
            && (m.cells[i][j] == 0 || m.cells[i][j] == 1)
            && (m.cells[i][j] == 1 <==> Record(m.rows[i], m.columns[j]) in records && m.columns[j] in top)
  {
    var m := PivotTable(records, top, sortIds, sortKeys);
    KeptExactly(records, top, Record(m.rows[i], m.columns[j]));
  }

  /** An admission has a pivot row exactly when some record of it carries
      a top key. */
  lemma PivotRow(records: seq<Record>, top: seq<string>, sortIds: seq<nat> -> seq<nat>,
                 sortKeys: seq<string> -> seq<string>, h: nat)
    requires SortsIds(sortIds)
    ensures h in PivotTable(records, top, sortIds, sortKeys).rows <==>
              exists r :: r in records && r.hadmId == h && r.key in top
  {
    var kept := Kept(records, top);
    assert PivotTable(records, top, sortIds, sortKeys).rows == sortIds(Ids(kept));
    var ids: seq<nat> := seq(|kept|, k requires 0 <= k < |kept| => kept[k].hadmId);
    if h in Ids(kept) {
      var k :| 0 <= k < |kept| && ids[k] == h;
      KeptExactly(records, top, kept[k]);
    }
    if exists r :: r in records && r.hadmId == h && r.key in top {
      var r :| r in records && r.hadmId == h && r.key in top;
      KeptExactly(records, top, r);
      var k :| 0 <= k < |kept| && kept[k] == r;
      assert ids[k] == h;
    }
  }

  /** A key has a pivot column exactly when it is a top key some record
      carries. */
  lemma PivotColumn(records: seq<Record>, top: seq<string>, sortIds: seq<nat> -> seq<nat>,
                    sortKeys: seq<string> -> seq<string>, c: string)
    requires SortsKeys(sortKeys)
    ensures c in PivotTable(records, top, sortIds, sortKeys).columns <==>
              c in top && exists r :: r in records && r.key == c
  {
    var kept := Kept(records, top);
    assert PivotTable(records, top, sortIds, sortKeys).columns == sortKeys(Keys(kept));
    var keys := seq(|kept|, k requires 0 <= k < |kept| => kept[k].key);
    if c in Keys(kept) {
      var k :| 0 <= k < |kept| && keys[k] == c;
      KeptExactly(records, top, kept[k]);
    }
    if c in top && exists r :: r in records && r.key == c {
      var r :| r in records && r.key == c;
      KeptExactly(records, top, r);
      var k :| 0 <= k < |kept| && kept[k] == r;
      assert keys[k] == c;
    }
  }

  /** The pivot's rows and columns are each listed once, in ascending order,
      and there are no more columns than top keys. */
  lemma PivotTableAxes(records: seq<Record>, top: seq<string>, sortIds: seq<nat> -> seq<nat>,
                       sortKeys: seq<string> -> seq<string>)
    requires SortsIds(sortIds) && SortsKeys(sortKeys)
    ensures var m := PivotTable(records, top, sortIds, sortKeys);
            && IdsAscending(m.rows)
            && KeysAscending(m.columns) && NoDups(m.columns)
            && |m.columns| <= |top|
  {
    var m := PivotTable(records, top, sortIds, sortKeys);
    KeysAscendingNoDups(m.columns);
    forall c | c in m.columns ensures c in top {
      PivotColumn(records, top, sortIds, sortKeys, c);
    }
    NoLonger(m.columns, top);
  }

  /** The merged rows are the admissions of either side, ascending. */
  lemma OuterMergeRows(left: Matrix, right: Matrix, sortIds: seq<nat> -> seq<nat>)
    requires WellShaped(left) && WellShaped(right) && SortsIds(sortIds)
    ensures var m := OuterMerge(left, right, sortIds);
            && IdsAscending(m.rows)
            && forall h :: h in m.rows <==> h in left.rows || h in right.rows
  {
  }

  /** A merged cell is the cell of the same admission and column on its
      side, or 0 when that side has no row for the admission. */
  lemma OuterMergeCell(left: Matrix, right: Matrix, sortIds: seq<nat> -> seq<nat>, i: nat, j: nat)
    requires WellShaped(left) && WellShaped(right)
    requires NoDups(left.rows) && NoDups(right.rows)
    requires i < |OuterMerge(left, right, sortIds).rows|
    requires j < |left.columns| + |right.columns|
    ensures var m := OuterMerge(left, right, sortIds);
            var h := m.rows[i];
            && (j < |left.columns| ==>
                  (h !in left.rows ==> m.cells[i][j] == 0) &&
                  forall r :: 0 <= r < |left.rows| && left.rows[r] == h ==> m.cells[i][j] == left.cells[r][j])
            && (j >= |left.columns| ==>
                  (h !in right.rows ==> m.cells[i][j] == 0) &&
                  forall r :: 0 <= r < |right.rows| && right.rows[r] == h ==>
                    m.cells[i][j] == right.cells[r][j - |left.columns|])
  {
    var m := OuterMerge(left, right, sortIds);
    var h := m.rows[i];
    assert m.cells[i] == RowOf(left, h) + RowOf(right, h);
    if h in left.rows {
      var f := FirstIndex(left.rows, h);
      assert forall r :: 0 <= r < |left.rows| && left.rows[r] == h ==> r == f;
    }
    if h in right.rows {
      var f := FirstIndex(right.rows, h);
      assert forall r :: 0 <= r < |right.rows| && right.rows[r] == h ==> r == f;
    }
  }

  lemma PrefixCancel(tag: string, a: string, b: string)
    ensures tag + a == tag + b <==> a == b
  {
    if tag + a == tag + b {
      assert a == (tag + a)[|tag|..] && b == (tag + b)[|tag|..];
    }
  }

  /** A diagnosis row of admission h with a top code is a kept record. */
  lemma DiagnosisRecordsHaving(diags: seq<DiagnosisRow>, top: seq<string>, h: nat)
    ensures (exists r :: r in DiagnosisRecords(diags) && r.hadmId == h && r.key in top) <==>
            (exists k :: 0 <= k < |diags| && diags[k].hadmId == h && diags[k].icdCode in top)
  {
    var dr := DiagnosisRecords(diags);
    if exists k :: 0 <= k < |diags| && diags[k].hadmId == h && diags[k].icdCode in top {
      var k :| 0 <= k < |diags| && diags[k].hadmId == h && diags[k].icdCode in top;
      assert dr[k] in dr;
    }
  }

  /** A prescription of admission h with a top drug is a kept record. */
  lemma PrescriptionRecordsHaving(rx: seq<Prescription>, top: seq<string>, h: nat)
    ensures (exists r :: r in PrescriptionRecords(rx) && r.hadmId == h && r.key in top) <==>
            (exists k :: 0 <= k < |rx| && rx[k].hadmId == h && rx[k].drug in top)
  {
    var pr := PrescriptionRecords(rx);
    if exists k :: 0 <= k < |rx| && rx[k].hadmId == h && rx[k].drug in top {
      var k :| 0 <= k < |rx| && rx[k].hadmId == h && rx[k].drug in top;
      assert pr[k] in pr;
    }
  }

  /** An admission has a row of the matrix exactly when it has a diagnosis
      with a top code or a prescription of a top drug; the rows ascend. */
  lemma BuildMatrixRow(diags: seq<DiagnosisRow>, rx: seq<Prescription>, topCodes: seq<string>, topDrugs: seq<string>,
                       sortIds: seq<nat> -> seq<nat>, sortKeys: seq<string> -> seq<string>, h: nat)
    requires SortsIds(sortIds)
    ensures var m := BuildMatrix(diags, rx, topCodes, topDrugs, sortIds, sortKeys);
            && IdsAscending(m.rows)
            && (h in m.rows <==>
                  (exists k :: 0 <= k < |diags| && diags[k].hadmId == h && diags[k].icdCode in topCodes) ||
                  (exists k :: 0 <= k < |rx| && rx[k].hadmId == h && rx[k].drug in topDrugs))
  {
    var dx := DiagnosisMatrix(diags, topCodes, sortIds, sortKeys);
    var px := PrescriptionMatrix(rx, topDrugs, sortIds, sortKeys);
    OuterMergeRows(dx, px, sortIds);
    PivotRow(DiagnosisRecords(diags), topCodes, sortIds, sortKeys, h);
    PivotRow(PrescriptionRecords(rx), topDrugs, sortIds, sortKeys, h);
    DiagnosisRecordsHaving(diags, topCodes, h);
    PrescriptionRecordsHaving(rx, topDrugs, h);
  }

  /** With top-20 code and drug lists: the diagnosis columns come first, at
      most 20 of them, then at most 20 prescription columns. */
  lemma BuildMatrixWidth(diags: seq<DiagnosisRow>, rx: seq<Prescription>, topCodes: seq<string>, topDrugs: seq<string>,
                         sortIds: seq<nat> -> seq<nat>, sortKeys: seq<string> -> seq<string>)
    requires SortsIds(sortIds) && SortsKeys(sortKeys)
    requires IsTop(topCodes, DiagnosisRecords(diags), 20) && IsTop(topDrugs, PrescriptionRecords(rx), 20)
    ensures var dx := DiagnosisMatrix(diags, topCodes, sortIds, sortKeys);
            var px := PrescriptionMatrix(rx, topDrugs, sortIds, sortKeys);
            && BuildMatrix(diags, rx, topCodes, topDrugs, sortIds, sortKeys).columns == dx.columns + px.columns
            && |dx.columns| <= 20 && |px.columns| <= 20
  {
    PivotTableAxes(DiagnosisRecords(diags), topCodes, sortIds, sortKeys);
    PivotTableAxes(PrescriptionRecords(rx), topDrugs, sortIds, sortKeys);
  }

  /** Diagnosis column j is named "Dx_" + a top code some diagnosis carries. */
  lemma DiagnosisColumnName(diags: seq<DiagnosisRow>, topCodes: seq<string>, sortIds: seq<nat> -> seq<nat>,
                            sortKeys: seq<string> -> seq<string>, j: nat)
    requires SortsKeys(sortKeys)
    requires j < |DiagnosisMatrix(diags, topCodes, sortIds, sortKeys).columns|
    ensures exists k :: 0 <= k < |diags| && diags[k].icdCode in topCodes &&
                        DiagnosisMatrix(diags, topCodes, sortIds, sortKeys).columns[j] == "Dx_" + diags[k].icdCode
  {
    var dr := DiagnosisRecords(diags);
    var c := PivotTable(dr, topCodes, sortIds, sortKeys).columns[j];
    PivotColumn(dr, topCodes, sortIds, sortKeys, c);
    var r :| r in dr && r.key == c;
    var k :| 0 <= k < |dr| && dr[k] == r;
    assert diags[k].icdCode == c;
  }

  /** Prescription column j is named "Rx_" + a top drug some prescription names. */
  lemma PrescriptionColumnName(rx: seq<Prescription>, topDrugs: seq<string>, sortIds: seq<nat> -> seq<nat>,
                               sortKeys: seq<string> -> seq<string>, j: nat)
    requires SortsKeys(sortKeys)
    requires j < |PrescriptionMatrix(rx, topDrugs, sortIds, sortKeys).columns|
    ensures exists k :: 0 <= k < |rx| && rx[k].drug in topDrugs &&
                        PrescriptionMatrix(rx, topDrugs, sortIds, sortKeys).columns[j] == "Rx_" + rx[k].drug
  {
    var pr := PrescriptionRecords(rx);
    var c := PivotTable(pr, topDrugs, sortIds, sortKeys).columns[j];
    PivotColumn(pr, topDrugs, sortIds, sortKeys, c);
    var r :| r in pr && r.key == c;
    var k :| 0 <= k < |pr| && pr[k] == r;
    assert rx[k].drug == c;
  }

  /** The pivot lists each of its rows once. */
  lemma PivotRowsOnce(records: seq<Record>, top: seq<string>, sortIds: seq<nat> -> seq<nat>,
                      sortKeys: seq<string> -> seq<string>)
    requires SortsIds(sortIds)
    ensures NoDups(PivotTable(records, top, sortIds, sortKeys).rows)
  {
    var rows := PivotTable(records, top, sortIds, sortKeys).rows;
    assert IdsAscending(rows);
  }

  /** Column j of the pivot says, for admission h, whether a record pairs h
      with the column's key: every row of h carries that verdict, and a
      missing row means the verdict is 0. */
  lemma PivotVerdict(records: seq<Record>, top: seq<string>, sortIds: seq<nat> -> seq<nat>,
                     sortKeys: seq<string> -> seq<string>, h: nat, j: nat)
    requires SortsIds(sortIds)
    requires j < |PivotTable(records, top, sortIds, sortKeys).columns|
    ensures var p := PivotTable(records, top, sortIds, sortKeys);
            var v := if Record(h, p.columns[j]) in records && p.columns[j] in top then 1 else 0;
            && (h !in p.rows ==> v == 0)
            && forall r :: 0 <= r < |p.rows| && p.rows[r] == h ==> p.cells[r][j] == v
  {
    var p := PivotTable(records, top, sortIds, sortKeys);
    PivotRow(records, top, sortIds, sortKeys, h);
    forall r | 0 <= r < |p.rows| && p.rows[r] == h
      ensures p.cells[r][j] == if Record(h, p.columns[j]) in records && p.columns[j] in top then 1 else 0
    {
      PivotTableCell(records, top, sortIds, sortKeys, r, j);
    }
  }

  /** A merged cell takes the value v that every row of its admission has
      in that column on its side, with 0 standing for a missing row. */
  lemma MergedCellIs(left: Matrix, right: Matrix, sortIds: seq<nat> -> seq<nat>, i: nat, j: nat, v: int)
    requires WellShaped(left) && WellShaped(right)
    requires NoDups(left.rows) && NoDups(right.rows)
    requires i < |OuterMerge(left, right, sortIds).rows|
    requires j < |left.columns| + |right.columns|
    requires var h := OuterMerge(left, right, sortIds).rows[i];
             var side := if j < |left.columns| then left else right;
             var c := if j < |left.columns| then j else j - |left.columns|;
             && (h !in side.rows ==> v == 0)
             && forall r :: 0 <= r < |side.rows| && side.rows[r] == h ==> side.cells[r][c] == v
    ensures OuterMerge(left, right, sortIds).cells[i][j] == v
  {
    var m := OuterMerge(left, right, sortIds);
    var h := m.rows[i];
    OuterMergeCell(left, right, sortIds, i, j);
    if j < |left.columns| && h in left.rows {
      var r := FirstIndex(left.rows, h);
      assert m.cells[i][j] == left.cells[r][j];
    } else if j >= |left.columns| && h in right.rows {
      var r := FirstIndex(right.rows, h);
      assert m.cells[i][j] == right.cells[r][j - |left.columns|];
    }
  }

  /** A merged cell on the left pivot's side is that pivot's verdict for
      the admission and key: 1 when a record pairs them, else 0. */
  lemma LeftPivotCell(records: seq<Record>, top: seq<string>, other: Matrix, tag: string,
                      sortIds: seq<nat> -> seq<nat>, sortKeys: seq<string> -> seq<string>, i: nat, j: nat)
    requires SortsIds(sortIds) && WellShaped(other) && NoDups(other.rows)
    requires var side := Prefixed(PivotTable(records, top, sortIds, sortKeys), tag);
             i < |OuterMerge(side, other, sortIds).rows| && j < |side.columns|
    ensures var p := PivotTable(records, top, sortIds, sortKeys);
            var m := OuterMerge(Prefixed(p, tag), other, sortIds);
            m.cells[i][j] == if Record(m.rows[i], p.columns[j]) in records && p.columns[j] in top then 1 else 0
  {
    var p := PivotTable(records, top, sortIds, sortKeys);
    var side := Prefixed(p, tag);
    var h := OuterMerge(side, other, sortIds).rows[i];
    assert side.rows == p.rows && side.cells == p.cells;
    PivotRowsOnce(records, top, sortIds, sortKeys);
    PivotVerdict(records, top, sortIds, sortKeys, h, j);
    MergedCellIs(side, other, sortIds, i, j,
                 if Record(h, p.columns[j]) in records && p.columns[j] in top then 1 else 0);
  }

  /** The same for a merged cell on the right pivot's side, which sits after
      the columns of the left matrix. */
  lemma RightPivotCell(records: seq<Record>, top: seq<string>, other: Matrix, tag: string,
                       sortIds: seq<nat> -> seq<nat>, sortKeys: seq<string> -> seq<string>, i: nat, j: nat)
    requires SortsIds(sortIds) && WellShaped(other) && NoDups(other.rows)
    requires var side := Prefixed(PivotTable(records, top, sortIds, sortKeys), tag);
             i < |OuterMerge(other, side, sortIds).rows| && j < |side.columns|
    ensures var p := PivotTable(records, top, sortIds, sortKeys);
            var m := OuterMerge(other, Prefixed(p, tag), sortIds);
            m.cells[i][|other.columns| + j] ==
              if Record(m.rows[i], p.columns[j]) in records && p.columns[j] in top then 1 else 0
  {
    var p := PivotTable(records, top, sortIds, sortKeys);
    var side := Prefixed(p, tag);
    var h := OuterMerge(other, side, sortIds).rows[i];
    assert side.rows == p.rows && side.cells == p.cells;
    PivotRowsOnce(records, top, sortIds, sortKeys);
    PivotVerdict(records, top, sortIds, sortKeys, h, j);
    MergedCellIs(other, side, sortIds, i, |other.columns| + j,
                 if Record(h, p.columns[j]) in records && p.columns[j] in top then 1 else 0);
  }

  /** A diagnosis cell of the matrix is 1 exactly when some diagnosis of that
      admission carries the column's top code, and 0 otherwise. */
  lemma DiagnosisCell(diags: seq<DiagnosisRow>, rx: seq<Prescription>, topCodes: seq<string>, topDrugs: seq<string>,
                      sortIds: seq<nat> -> seq<nat>, sortKeys: seq<string> -> seq<string>, i: nat, j: nat)
    requires SortsIds(sortIds)
    requires i < |BuildMatrix(diags, rx, topCodes, topDrugs, sortIds, sortKeys).rows|
    requires j < |DiagnosisMatrix(diags, topCodes, sortIds, sortKeys).columns|
    ensures var m := BuildMatrix(diags, rx, topCodes, topDrugs, sortIds, sortKeys);
            && (m.cells[i][j] == 0 || m.cells[i][j] == 1)
            && (m.cells[i][j] == 1 <==>
                  exists k :: 0 <= k < |diags| && diags[k].hadmId == m.rows[i] && diags[k].icdCode in topCodes &&
                              m.columns[j] == "Dx_" + diags[k].icdCode)
  {
    var dr := DiagnosisRecords(diags);
    var c := PivotTable(dr, topCodes, sortIds, sortKeys).columns[j];
    var px := PrescriptionMatrix(rx, topDrugs, sortIds, sortKeys);
    var m := BuildMatrix(diags, rx, topCodes, topDrugs, sortIds, sortKeys);
    PivotRowsOnce(PrescriptionRecords(rx), topDrugs, sortIds, sortKeys);
    LeftPivotCell(dr, topCodes, px, "Dx_", sortIds, sortKeys, i, j);
    var h := m.rows[i];
    assert m.columns[j] == "Dx_" + c;
    forall k | 0 <= k < |diags| ensures m.columns[j] == "Dx_" + diags[k].icdCode <==> diags[k].icdCode == c {
      PrefixCancel("Dx_", c, diags[k].icdCode);
    }
    if Record(h, c) in dr {
      var k :| 0 <= k < |dr| && dr[k] == Record(h, c);
      assert diags[k].hadmId == h && diags[k].icdCode == c;
    }
    forall k | 0 <= k < |diags| && diags[k].hadmId == h && diags[k].icdCode == c ensures Record(h, c) in dr {
      assert dr[k] == Record(h, c);
    }
  }

  /** A prescription cell of the matrix is 1 exactly when some prescription
      of that admission names the column's top drug, and 0 otherwise. */
  lemma PrescriptionCell(diags: seq<DiagnosisRow>, rx: seq<Prescription>, topCodes: seq<string>, topDrugs: seq<string>,
                         sortIds: seq<nat> -> seq<nat>, sortKeys: seq<string> -> seq<string>, i: nat, j: nat)
    requires SortsIds(sortIds)
    requires i < |BuildMatrix(diags, rx, topCodes, topDrugs, sortIds, sortKeys).rows|
    requires j < |PrescriptionMatrix(rx, topDrugs, sortIds, sortKeys).columns|
    ensures var m := BuildMatrix(diags, rx, topCodes, topDrugs, sortIds, sortKeys);
            var jj := |DiagnosisMatrix(diags, topCodes, sortIds, sortKeys).columns| + j;
            && (m.cells[i][jj] == 0 || m.cells[i][jj] == 1)
            && (m.cells[i][jj] == 1 <==>
                  exists k :: 0 <= k < |rx| && rx[k].hadmId == m.rows[i] && rx[k].drug in topDrugs &&
                              m.columns[jj] == "Rx_" + rx[k].drug)
  {
    var pr := PrescriptionRecords(rx);
    var c := PivotTable(pr, topDrugs, sortIds, sortKeys).columns[j];
    var dx := DiagnosisMatrix(diags, topCodes, sortIds, sortKeys);
    var m := BuildMatrix(diags, rx, topCodes, topDrugs, sortIds, sortKeys);
    var jj := |dx.columns| + j;
    PivotRowsOnce(DiagnosisRecords(diags), topCodes, sortIds, sortKeys);
    RightPivotCell(pr, topDrugs, dx, "Rx_", sortIds, sortKeys, i, j);
    var h := m.rows[i];
    assert m.columns[jj] == "Rx_" + c;
    forall k | 0 <= k < |rx| ensures m.columns[jj] == "Rx_" + rx[k].drug <==> rx[k].drug == c {
      PrefixCancel("Rx_", c, rx[k].drug);
    }
    if Record(h, c) in pr {
      var k :| 0 <= k < |pr| && pr[k] == Record(h, c);
      assert rx[k].hadmId == h && rx[k].drug == c;
    }
    forall k | 0 <= k < |rx| && rx[k].hadmId == h && rx[k].drug == c ensures Record(h, c) in pr {
      assert pr[k] == Record(h, c);
    }
  }
}

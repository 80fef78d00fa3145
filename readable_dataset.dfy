/** pipelineScalingCode/finalize_dataset.py: the diagnosis pivot of the top
    codes with each column renamed after its code's title, cut to twenty
    characters, so the saved dataset can be read by a person. */
module ReadableDataset {
  import opened Text
  import opened Clinical
  import opened FeatureMatrix

  /** The title shown for a code the dictionary lacks. */
  const UnknownTitle := "Unknown"

  /** dict(zip(df_dict['icd_code'], df_dict['long_title'])): keyed by the
      code alone, a later row replacing an earlier one with the same code
      whatever its icd_version. */
  function CodeMap(dict: seq<DictEntry>): map<string, string>
    decreases |dict|
  {
    if dict == [] then map[]
    else
      var last := dict[|dict| - 1];
      CodeMap(dict[..|dict| - 1])[last.icdCode := last.longTitle]
  }

  /** The map has exactly the dictionary's codes. */
  lemma {:induction false} CodeMapKeys(dict: seq<DictEntry>, c: string)
    ensures c in CodeMap(dict) <==> exists k :: 0 <= k < |dict| && dict[k].icdCode == c
    decreases |dict|
  {
    if dict != [] {
      CodeMapKeys(dict[..|dict| - 1], c);
      if exists k :: 0 <= k < |dict| && dict[k].icdCode == c {
        var k :| 0 <= k < |dict| && dict[k].icdCode == c;
        if k < |dict| - 1 {
          assert dict[..|dict| - 1][k].icdCode == c;
        }
      }
    }
  }

  /** A code maps to the title of its last dictionary row. */
  lemma {:induction false} CodeMapLastWins(dict: seq<DictEntry>, k: nat)
    requires k < |dict|
    requires forall j :: k < j < |dict| ==> dict[j].icdCode != dict[k].icdCode
    ensures dict[k].icdCode in CodeMap(dict)
    ensures CodeMap(dict)[dict[k].icdCode] == dict[k].longTitle
    decreases |dict|
  {
    if k < |dict| - 1 {
      var init := dict[..|dict| - 1];
      assert forall j :: k < j < |init| ==> init[j] == dict[j];
      CodeMapLastWins(init, k);
    }
  }

  /** The new name of column col: "Dx_" and the first twenty characters of
      its title, or of "Unknown". */
  function ReadableName(codeMap: map<string, string>, col: string): string {
    "Dx_" + Prefix(if col in codeMap then codeMap[col] else UnknownTitle, 20)
  }

  /** A new name opens with "Dx_" and keeps at most twenty characters of
      the title, all of them when it is no longer; an unmapped code is named
      "Dx_Unknown". */
  lemma ReadableNameShape(codeMap: map<string, string>, col: string)
    ensures var name := ReadableName(codeMap, col);
            && StartsWith(name, "Dx_") && |name| <= 23
            && (col !in codeMap ==> name == "Dx_Unknown")
            && (col in codeMap ==> StartsWith(codeMap[col], name[3..]))
            && (col in codeMap && |codeMap[col]| <= 20 ==> name == "Dx_" + codeMap[col])
  {
    var name := ReadableName(codeMap, col);
    ConcatStartsWith("Dx_", name[3..]);
    assert name == "Dx_" + name[3..];
  }

  /** The renaming loop: one new name per column, in the same order. */
  method RenameColumns(columns: seq<string>, codeMap: map<string, string>) returns (newColumns: seq<string>)
    ensures |newColumns| == |columns|
    ensures forall j :: 0 <= j < |columns| ==> newColumns[j] == ReadableName(codeMap, columns[j])
  {
    newColumns := [];
    var j := 0;
    while j < |columns|
      invariant 0 <= j <= |columns|
      invariant |newColumns| == j
      invariant forall i :: 0 <= i < j ==> newColumns[i] == ReadableName(codeMap, columns[i])
    {
      var col := columns[j];
      var title := if col in codeMap then codeMap[col] else UnknownTitle;
      var name := Prefix(title, 20);
      newColumns := newColumns + ["Dx_" + name];
      j := j + 1;
    }
  }

  /** The script: pivot the diagnoses of the top codes, then rename the
      columns; the rows and the 0/1 cells stay as the pivot made them. */
  method Finalize(diags: seq<DiagnosisRow>, dict: seq<DictEntry>, topCodes: seq<string>,
                  sortIds: seq<nat> -> seq<nat>, sortKeys: seq<string> -> seq<string>) returns (matrix: Matrix)
    ensures var pivot := PivotTable(DiagnosisRecords(diags), topCodes, sortIds, sortKeys);
            && matrix.rows == pivot.rows && matrix.cells == pivot.cells
            && |matrix.columns| == |pivot.columns|
            && forall j :: 0 <= j < |pivot.columns| ==> matrix.columns[j] == ReadableName(CodeMap(dict), pivot.columns[j])
    ensures WellShaped(matrix) && Binary(matrix)
  {
    matrix := PivotTable(DiagnosisRecords(diags), topCodes, sortIds, sortKeys);
    var codeMap := CodeMap(dict);
    var newColumns := RenameColumns(matrix.columns, codeMap);
    matrix := matrix.(columns := newColumns);
  }
}

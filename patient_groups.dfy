/** The main of pipelineScalingCode/mimicivLifelines.py and of
    old_pipeline_for_reference/code_pipeline/aggregate_patient_summaries.py:
    every row of the per-query summaries file is given a PATIENT_ID, the
    rows are grouped by that id, the summaries of a group are joined into
    one text, and each group gets the language model's reply to a prompt
    built around that text, or the text itself. The two scripts differ only
    in the separator, the prompt and the name of the output column. */
module PatientGroups {
  import opened Wrappers
  import opened Text
  import opened Endpoint
  import opened AdmissionId

  /** One row of the input: the two fields the id is read from and the
      row-level summary, None where the cell is empty. */
  datatype SummaryRow = SummaryRow(sqlQuery: Cell, nlQuestion: Cell, summary: Option<string>)

  /** One output row: the group's id and its lifelines_summary (Lifelines)
      or combined_summary (Combined). */
  datatype GroupSummary = GroupSummary(patientId: nat, summary: string)

  /** Which of the two scripts. */
  datatype Style = Lifelines | Combined

  const NoIdMessage := "Could not extract any PATIENT_ID values. Check your input formatting."

  /** What tells the two scripts apart: how a group's summaries are joined
      (a new line and a dash, which helps the model tell events apart, or a
      single space) and the prompt text around the group's text. */
  datatype Format = Format(separator: string, promptHead: string, promptTail: string)

  function FormatOf(style: Style): Format {
    match style
    case Lifelines =>
      Format("\n- ",
             "You are a clinical summarizer specializing in longitudinal patient history.\n\n" +
             "Input Data (Individual Events):\n- ",
             "\n\n" +
             "Task: Reconstruct this patient's history into a \"Lifelines\" visualization format.\n" +
             "1. ORDER events chronologically (Past -> Present) if time clues exist.\n" +
             "2. CATEGORIZE each event into one of: [Diagnoses], [Medications], [Labs], [Procedures].\n" +
             "3. MERGE related items (e.g., combine multiple antibiotic prescriptions into one entry).\n\n" +
             "Required Output Format:\n[Category] | [Event Description]\n\n" +
             "Example:\n[Diagnoses] | Admitted for Pneumonia\n[Medications] | Prescribed Vancomycin and Cefepime\n" +
             "[Labs] | Low potassium levels detected\n\nStart directly with the summary:\n")
    case Combined =>
      Format(" ",
             "You are a clinical summarization model.\n" +
             "Given the following individual record summaries for one patient, write a concise, neutral summary (max 3 sentences).\n\n" +
             "Records:\n",
             "\n")
  }

  /** The prompt sent for a group, around the group's text. */
  function Prompt(f: Format, text: string): string {
    f.promptHead + text + f.promptTail
  }

  function RowId(row: SummaryRow): Option<nat> {
    PatientId(row.sqlQuery, row.nlQuestion)
  }

  predicate Increasing(s: seq<nat>) {
    forall i, j :: 0 <= i < j < |s| ==> s[i] < s[j]
  }

  /** x added to an ascending list of distinct keys. */
  function Insert(s: seq<nat>, x: nat): (r: seq<nat>)
    requires Increasing(s)
    ensures Increasing(r)
    ensures forall y :: y in r <==> y in s || y == x
  {
    if s == [] then [x]
    else if x < s[0] then [x] + s
    else if x == s[0] then s
    else
      var rest := Insert(s[1..], x);
      assert forall k :: 0 <= k < |rest| ==> s[0] < rest[k] by {
        forall k | 0 <= k < |rest| ensures s[0] < rest[k] {
          assert rest[k] in rest;
          if rest[k] != x {
            var m :| 0 <= m < |s[1..]| && s[1..][m] == rest[k];
            assert s[m + 1] == rest[k];
          }
        }
      }
      [s[0]] + rest
  }

  /** The keys of groupby over the PATIENT_ID column: the distinct ids in
      ascending order. Rows without an id (NaN) belong to no group. */
  function GroupKeys(ids: seq<Option<nat>>): (keys: seq<nat>)
    ensures Increasing(keys)
    ensures forall k :: k in keys <==> Some(k) in ids
  {
    if ids == [] then []
    else
      var prev := GroupKeys(ids[..|ids| - 1]);
      var id := ids[|ids| - 1];
      assert ids == ids[..|ids| - 1] + [id];
      if id.Some? then Insert(prev, id.value) else prev
  }

  /** The summaries of group `key` that are not null, in row order. */
  function Members(ids: seq<Option<nat>>, summaries: seq<Option<string>>, key: nat): (r: seq<string>)
    requires |ids| == |summaries|
    ensures |r| <= |ids|
  {
    if ids == [] then []
    else
      var n := |ids| - 1;
      var prev := Members(ids[..n], summaries[..n], key);
      if ids[n] == Some(key) && summaries[n].Some? then prev + [summaries[n].value] else prev
  }

  /** A member is exactly a non-null summary of a row with that id. */
  lemma {:induction false} MembersExactly(ids: seq<Option<nat>>, summaries: seq<Option<string>>, key: nat)
    requires |ids| == |summaries|
    ensures forall x :: x in Members(ids, summaries, key) <==>
              exists i :: 0 <= i < |ids| && ids[i] == Some(key) && summaries[i] == Some(x)
  {
    if ids != [] {
      var n := |ids| - 1;
      MembersExactly(ids[..n], summaries[..n], key);
      assert forall i :: 0 <= i < n ==> ids[..n][i] == ids[i] && summaries[..n][i] == summaries[i];
    }
  }

  /** The text of group `key`: its non-null summaries joined. */
  function GroupText(ids: seq<Option<nat>>, summaries: seq<Option<string>>, key: nat, f: Format): string
    requires |ids| == |summaries|
  {
    Join(Members(ids, summaries, key), f.separator)
  }

  /** What the output row of the j-th group, with text `text`, says. */
  function GroupOutcome(f: Format, endpointUp: bool, reply: (nat, string) -> Option<string>, j: nat, text: string): string {
    Slot(endpointUp, reply, j, Prompt(f, text), text)
  }

  /** The PATIENT_ID column. */
  function IdColumn(rows: seq<SummaryRow>): (ids: seq<Option<nat>>)
    ensures |ids| == |rows|
  {
    seq(|rows|, i requires 0 <= i < |rows| => RowId(rows[i]))
  }

  /** The summary column. */
  function SummaryColumn(rows: seq<SummaryRow>): (summaries: seq<Option<string>>)
    ensures |summaries| == |rows|
  {
    seq(|rows|, i requires 0 <= i < |rows| => rows[i].summary)
  }

  /** main, with the format of either script (FormatOf): ValueError when no
      row has an id; otherwise one output row per group, in ascending id
      order. */
  method SummarizePatients(rows: seq<SummaryRow>, f: Format, endpointUp: bool,
                           reply: (nat, string) -> Option<string>)
    returns (r: Result<seq<GroupSummary>, string>)
    ensures r.Err? <==> forall i :: 0 <= i < |rows| ==> IdColumn(rows)[i] == None
    ensures r.Err? ==> r.error == NoIdMessage
    ensures r.Ok? ==> r.value == GroupOutcomes(IdColumn(rows), SummaryColumn(rows), f, endpointUp, reply)
  {
    var ids := IdColumn(rows);
    if forall i :: 0 <= i < |ids| ==> ids[i] == None {
      return Err(NoIdMessage);
    }
    var results := GroupResults(ids, SummaryColumn(rows), f, endpointUp, reply);
    return Ok(results);
  }

  /** The output rows main writes: one per group key, in key order. */
  function GroupOutcomes(ids: seq<Option<nat>>, summaries: seq<Option<string>>, f: Format, endpointUp: bool,
                         reply: (nat, string) -> Option<string>): (out: seq<GroupSummary>)
    requires |ids| == |summaries|
    ensures |out| == |GroupKeys(ids)|
    ensures forall j :: 0 <= j < |out| ==> out[j].patientId == GroupKeys(ids)[j]
  {
    var keys := GroupKeys(ids);
    seq(|keys|, j requires 0 <= j < |keys| =>
      GroupSummary(keys[j], GroupOutcome(f, endpointUp, reply, j, GroupText(ids, summaries, keys[j], f))))
  }

  /** One pass of the loop of main: the reply to the group's prompt, or the
      group text when the endpoint is down or the call raised. */
  method SummarizeGroup(f: Format, endpointUp: bool, reply: (nat, string) -> Option<string>, j: nat, text: string)
    returns (summary: string)
    ensures summary == GroupOutcome(f, endpointUp, reply, j, text)
  {
    summary := text;
    if endpointUp {
      var answer := reply(j, Prompt(f, text));
      if answer.Some? {
        summary := Strip(answer.value);
      }
    }
  }

  /** The loop of main over the groups, appending one output row each. */
  method GroupResults(ids: seq<Option<nat>>, summaries: seq<Option<string>>, f: Format, endpointUp: bool,
                      reply: (nat, string) -> Option<string>)
    returns (results: seq<GroupSummary>)
    requires |ids| == |summaries|
    ensures results == GroupOutcomes(ids, summaries, f, endpointUp, reply)
  {
    var keys := GroupKeys(ids);
    ghost var all := GroupOutcomes(ids, summaries, f, endpointUp, reply);
    results := [];
    var j := 0;
    while j < |keys|
      invariant 0 <= j <= |keys| && results == all[..j]
    {
      var text := GroupText(ids, summaries, keys[j], f);
      var summary := SummarizeGroup(f, endpointUp, reply, j, text);
      results := results + [GroupSummary(keys[j], summary)];
      j := j + 1;
    }
  }

  /** Row order is kept: the members of a group over two runs of rows are
      the members over the first run followed by those over the second. */
  lemma {:induction false} MembersAppend(ids: seq<Option<nat>>, summaries: seq<Option<string>>,
                                         ids': seq<Option<nat>>, summaries': seq<Option<string>>, key: nat)
    requires |ids| == |summaries| && |ids'| == |summaries'|
    ensures Members(ids + ids', summaries + summaries', key) == Members(ids, summaries, key) + Members(ids', summaries', key)
    decreases |ids'|
  {
    if ids' == [] {
      assert ids + ids' == ids && summaries + summaries' == summaries;
    } else {
      var n := |ids'| - 1;
      var big, bigSummaries := ids + ids', summaries + summaries';
      var last := |ids| + n;
      assert big[..last] == ids + ids'[..n] && bigSummaries[..last] == summaries + summaries'[..n];
      assert big[last] == ids'[n] && bigSummaries[last] == summaries'[n];
      var tail := if ids'[n] == Some(key) && summaries'[n].Some? then [summaries'[n].value] else [];
      assert Members(big, bigSummaries, key) == Members(ids + ids'[..n], summaries + summaries'[..n], key) + tail;
      assert Members(ids', summaries', key) == Members(ids'[..n], summaries'[..n], key) + tail;
      MembersAppend(ids, summaries, ids'[..n], summaries'[..n], key);
    }
  }

  /** A group whose summaries are all null has the empty text, and a group
      with one non-null summary has exactly that summary as its text. */
  lemma GroupTextCases(ids: seq<Option<nat>>, summaries: seq<Option<string>>, key: nat, f: Format)
    requires |ids| == |summaries|
    ensures (forall i :: 0 <= i < |ids| && ids[i] == Some(key) ==> summaries[i] == None) ==>
              GroupText(ids, summaries, key, f) == ""
    ensures |Members(ids, summaries, key)| == 1 ==> GroupText(ids, summaries, key, f) == Members(ids, summaries, key)[0]
  {
    var m := Members(ids, summaries, key);
    if m != [] {
      MembersExactly(ids, summaries, key);
      assert m[0] in m;
    }
  }

  /** With the endpoint down, or a call failing, an output row holds the
      group text itself. */
  lemma FallbackIsGroupText(f: Format, endpointUp: bool, reply: (nat, string) -> Option<string>, j: nat, text: string)
    ensures !endpointUp || reply(j, Prompt(f, text)).None? ==> GroupOutcome(f, endpointUp, reply, j, text) == text
  {
  }
}

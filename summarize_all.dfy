/** old_pipeline_for_reference/code_pipeline/summarize_all.py: every
    patient of the admissions table gets a one-line-per-visit summary naming
    up to eight distinct diagnoses and drugs per visit; the summaries are
    collected in table order and written as text blocks. */
module SummarizeAll {
  import opened Text
  import opened Clinical

  /** ", ".join(items[:8]), or the given text for an empty list. */
  function ListText(items: seq<string>, empty: string): string {
    if |items| > 0 then Join(Prefix(items, 8), ", ") else empty
  }

  /** The first line of a summary. */
  function CountSentence(id: nat, n: nat): string {
    "Patient " + NatToString(id) + " is a " + NatToString(n) + "-visit patient."
  }

  /** The words that open visit i. */
  function VisitHeading(i: nat, date: string): string {
    " Visit " + NatToString(i) + " (" + date + "): "
  }

  const AdmittedWith := "Admitted with "
  const Prescribed := "Prescribed "
  const NoDiagnoses := "No recorded diagnoses"
  const NoMedications := "No recorded medications"

  /** The paragraph of visit i with its distinct diagnoses and drugs. */
  function Paragraph(i: nat, date: string, diags: seq<string>, meds: seq<string>): string {
    VisitHeading(i, date) + AdmittedWith + ListText(diags, NoDiagnoses) + ". " +
    Prescribed + ListText(meds, NoMedications) + "."
  }

  function VisitParagraph(i: nat, a: Admission, diags: seq<TitledDiagnosis>, rx: seq<Prescription>): string {
    Paragraph(i, DatePart(a.admitTime), UniqueTitles(diags, a.hadmId), UniqueDrugs(rx, a.hadmId))
  }

  /** The items of summary_parts: the count sentence, then one paragraph per
      admission, numbered from 1. */
  function SummaryParts(id: nat, admissions: seq<Admission>, diags: seq<TitledDiagnosis>,
                        rx: seq<Prescription>): (parts: seq<string>)
    ensures |parts| == |admissions| + 1
  {
    [CountSentence(id, |admissions|)] +
    seq(|admissions|, k requires 0 <= k < |admissions| => VisitParagraph(k + 1, admissions[k], diags, rx))
  }

  /** generate_summary(id), the admissions table being in admittime order. */
  function GenerateSummary(id: nat, adm: seq<Admission>, diags: seq<TitledDiagnosis>, rx: seq<Prescription>): string {
    var admissions := PatientAdmissions(adm, id);
    if admissions == [] then "" else Join(SummaryParts(id, admissions, diags, rx), "\n")
  }

  /** The paragraph of one visit: its date, its distinct diagnoses and drugs,
      each list cut at eight or replaced when empty. */
  method DraftParagraph(i: nat, a: Admission, diags: seq<TitledDiagnosis>, rx: seq<Prescription>)
    returns (paragraph: string)
    ensures paragraph == VisitParagraph(i, a, diags, rx)
  {
    var date := DatePart(a.admitTime);
    var visitDiags := UniqueTitles(diags, a.hadmId);
    var visitMeds := UniqueDrugs(rx, a.hadmId);
    var diagStr := ListText(visitDiags, NoDiagnoses);
    var medStr := ListText(visitMeds, NoMedications);
    paragraph := VisitHeading(i, date) + AdmittedWith + diagStr + ". " + Prescribed + medStr + ".";
  }

  /** generate_summary: the count sentence, then a paragraph per admission. */
  method Generate(id: nat, adm: seq<Admission>, diags: seq<TitledDiagnosis>, rx: seq<Prescription>)
    returns (summary: string)
    ensures summary == GenerateSummary(id, adm, diags, rx)
  {
    var admissions := PatientAdmissions(adm, id);
    if admissions == [] {
      return "";
    }
    ghost var all := SummaryParts(id, admissions, diags, rx);
    var summaryParts := [CountSentence(id, |admissions|)];
    assert summaryParts == all[..1];
    var i := 0;
    while i < |admissions|
      invariant 0 <= i <= |admissions|
      invariant summaryParts == all[..i + 1]
    {
      var paragraph := DraftParagraph(i + 1, admissions[i], diags, rx);
      assert all[i + 1] == paragraph;
      TakeSnoc(all, i + 1);
      summaryParts := summaryParts + [paragraph];
      i := i + 1;
    }
    assert summaryParts == all;
    summary := Join(summaryParts, "\n");
  }

  /** One entry of results. */
  datatype PatientResult = PatientResult(subjectId: nat, summary: string)

  /** The results of the given patients, in order, leaving out those whose
      summary is empty. */
  function Collected(ids: seq<nat>, adm: seq<Admission>, diags: seq<TitledDiagnosis>,
                     rx: seq<Prescription>): (results: seq<PatientResult>)
    ensures |results| <= |ids|
    decreases |ids|
  {
    if ids == [] then []
    else
      var id := ids[|ids| - 1];
      var summary := GenerateSummary(id, adm, diags, rx);
      Collected(ids[..|ids| - 1], adm, diags, rx) + (if summary != "" then [PatientResult(id, summary)] else [])
  }

  /** One more patient adds its result, if it has one. */
  lemma CollectedStep(ids: seq<nat>, i: nat, adm: seq<Admission>, diags: seq<TitledDiagnosis>, rx: seq<Prescription>)
    requires i < |ids|
    ensures var summary := GenerateSummary(ids[i], adm, diags, rx);
            Collected(ids[..i + 1], adm, diags, rx) ==
            Collected(ids[..i], adm, diags, rx) + (if summary != "" then [PatientResult(ids[i], summary)] else [])
  {
    assert ids[..i + 1][..i] == ids[..i];
  }

  /** The loop over df_adm['subject_id'].unique() that collects the
      non-empty summaries. */
  method CollectResults(adm: seq<Admission>, diags: seq<TitledDiagnosis>, rx: seq<Prescription>)
    returns (results: seq<PatientResult>)
    ensures results == Collected(SubjectIds(adm), adm, diags, rx)
  {
    var allPatients := SubjectIds(adm);
    results := [];
    var i := 0;
    while i < |allPatients|
      invariant 0 <= i <= |allPatients|
      invariant results == Collected(allPatients[..i], adm, diags, rx)
    {
      var summary := Generate(allPatients[i], adm, diags, rx);
      CollectedStep(allPatients, i, adm, diags, rx);
      if summary != "" {
        results := results + [PatientResult(allPatients[i], summary)];
      }
      i := i + 1;
    }
    assert allPatients[..i] == allPatients;
  }

  /** One block of the text file. */
  function Block(r: PatientResult): string {
    Repeat('-', 50) + "\n" + "### ID: " + NatToString(r.subjectId) + " ###\n" + r.summary + "\n\n"
  }

  /** The text file: the blocks of the results, in order. */
  function Blocks(results: seq<PatientResult>): string
    decreases |results|
  {
    if results == [] then "" else Blocks(results[..|results| - 1]) + Block(results[|results| - 1])
  }

  /** Writing all_patient_summaries.txt, block by block. */
  method WriteBlocks(results: seq<PatientResult>) returns (text: string)
    ensures text == Blocks(results)
  {
    text := "";
    var i := 0;
    while i < |results|
      invariant 0 <= i <= |results|
      invariant text == Blocks(results[..i])
    {
      assert results[..i + 1][..i] == results[..i];
      text := text + Block(results[i]);
      i := i + 1;
    }
    assert results[..i] == results;
  }

  // ----- What the summaries promise -----

  /** A patient's summary is empty exactly when the patient has no admission. */
  lemma EmptyIff(id: nat, adm: seq<Admission>, diags: seq<TitledDiagnosis>, rx: seq<Prescription>)
    ensures GenerateSummary(id, adm, diags, rx) == "" <==> PatientAdmissions(adm, id) == []
  {
    var admissions := PatientAdmissions(adm, id);
    if admissions != [] {
      var parts := SummaryParts(id, admissions, diags, rx);
      assert parts[0] == CountSentence(id, |admissions|);
      JoinStartsWith(parts, "\n");
    }
  }

  /** Every paragraph opens with its visit's number and date. */
  lemma ParagraphHeading(i: nat, date: string, diags: seq<string>, meds: seq<string>)
    ensures StartsWith(Paragraph(i, date, diags, meds), VisitHeading(i, date))
  {
    var h := VisitHeading(i, date);
    var d := ListText(diags, NoDiagnoses);
    var m := ListText(meds, NoMedications);
    ConcatStartsWith(h, AdmittedWith);
    StartsWithExtend(h + AdmittedWith, h, d);
    StartsWithExtend(h + AdmittedWith + d, h, ". ");
    StartsWithExtend(h + AdmittedWith + d + ". ", h, Prescribed);
    StartsWithExtend(h + AdmittedWith + d + ". " + Prescribed, h, m);
    StartsWithExtend(h + AdmittedWith + d + ". " + Prescribed + m, h, ".");
  }

  /** Part k + 1 of the summary is the k-th admission's paragraph, numbered
      k + 1 in table order and dated by the admittime text before its first
      space. */
  lemma SummaryNumbering(id: nat, admissions: seq<Admission>, diags: seq<TitledDiagnosis>, rx: seq<Prescription>, k: nat)
    requires k < |admissions|
    ensures StartsWith(SummaryParts(id, admissions, diags, rx)[k + 1],
                       VisitHeading(k + 1, DatePart(admissions[k].admitTime)))
  {
    var a := admissions[k];
    assert SummaryParts(id, admissions, diags, rx)[k + 1] == VisitParagraph(k + 1, a, diags, rx);
    ParagraphHeading(k + 1, DatePart(a.admitTime), UniqueTitles(diags, a.hadmId), UniqueDrugs(rx, a.hadmId));
  }

  /** A visit without diagnoses says NoDiagnoses where the list
      would be, and one without drugs says NoMedications. */
  lemma EmptyListsText(i: nat, date: string, diags: seq<string>, meds: seq<string>)
    ensures diags == [] ==>
              StartsWith(Paragraph(i, date, diags, meds), VisitHeading(i, date) + AdmittedWith + NoDiagnoses + ". ")
    ensures meds == [] ==>
              EndsWith(Paragraph(i, date, diags, meds), Prescribed + NoMedications + ".")
  {
    var h := VisitHeading(i, date) + AdmittedWith + ListText(diags, NoDiagnoses) + ". ";
    var tail := Prescribed + ListText(meds, NoMedications) + ".";
    assert Paragraph(i, date, diags, meds) == h + tail;
    ConcatStartsWith(h, tail);
    ConcatEndsWith(h, tail);
  }

  /** When every listed patient has an admission, none of them is left out,
      and the results follow the list. */
  lemma {:induction false} CollectedKeepsAll(ids: seq<nat>, adm: seq<Admission>, diags: seq<TitledDiagnosis>,
                                             rx: seq<Prescription>)
    requires forall id :: id in ids ==> PatientAdmissions(adm, id) != []
    ensures |Collected(ids, adm, diags, rx)| == |ids|
    ensures forall k :: 0 <= k < |ids| ==> Collected(ids, adm, diags, rx)[k].subjectId == ids[k]
    decreases |ids|
  {
    if ids != [] {
      var init := ids[..|ids| - 1];
      var id := ids[|ids| - 1];
      assert ids == init + [id];
      CollectedKeepsAll(init, adm, diags, rx);
      var summary := GenerateSummary(id, adm, diags, rx);
      EmptyIff(id, adm, diags, rx);
      assert summary != "";
      var r := Collected(init, adm, diags, rx);
      var all := r + [PatientResult(id, summary)];
      assert Collected(ids, adm, diags, rx) == all;
      forall k | 0 <= k < |ids| ensures all[k].subjectId == ids[k] {
        if k < |init| {
          assert all[k] == r[k] && ids[k] == init[k];
        }
      }
    }
  }

  /** Every patient of the admissions table has a result, in the order of
      first appearance in the table. */
  lemma EveryPatientKept(adm: seq<Admission>, diags: seq<TitledDiagnosis>, rx: seq<Prescription>)
    ensures |Collected(SubjectIds(adm), adm, diags, rx)| == |SubjectIds(adm)|
    ensures forall k :: 0 <= k < |SubjectIds(adm)| ==>
              Collected(SubjectIds(adm), adm, diags, rx)[k].subjectId == SubjectIds(adm)[k]
  {
    forall id | id in SubjectIds(adm) ensures PatientAdmissions(adm, id) != [] {
      SubjectIdsHaveAdmissions(adm, id);
    }
    CollectedKeepsAll(SubjectIds(adm), adm, diags, rx);
  }

  /** A block is a line of fifty dashes, the id line, and the summary
      followed by a blank line. */
  lemma BlockLayout(r: PatientResult)
    ensures StartsWith(Block(r), Repeat('-', 50) + "\n" + "### ID: " + NatToString(r.subjectId) + " ###\n")
    ensures EndsWith(Block(r), r.summary + "\n\n")
  {
    var head := Repeat('-', 50) + "\n" + "### ID: " + NatToString(r.subjectId) + " ###\n";
    assert Block(r) == head + (r.summary + "\n\n");
    ConcatStartsWith(head, r.summary + "\n\n");
    ConcatEndsWith(head, r.summary + "\n\n");
  }
}

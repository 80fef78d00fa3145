/** pipelineScalingCode/generate_patient_summaries.py: summarize_patient
    writes one patient's admissions as a headed list of visit paragraphs,
    each naming up to five distinct diagnoses and five distinct drugs. */
module PatientSummaries {
  import opened Text
  import opened Clinical

  /** The text for a patient with no admission. */
  function NoRecords(id: nat): string {
    "No records found for Patient " + NatToString(id) + "."
  }

  function Banner(id: nat): string {
    "### PATIENT SUMMARY: " + NatToString(id) + " ###\n"
  }

  function CountLine(id: nat, n: nat): string {
    "Patient " + NatToString(id) + " had " + NatToString(n) + " hospital admission(s).\n"
  }

  // The fixed clauses of a visit paragraph.
  const Admitted := "The patient was admitted to the hospital. "
  const FindingsIntro := "Primary clinical findings included "
  const AmongOthers := ", among others."
  const TreatmentIntro := "\nTreatment included prescriptions for "
  const OtherMedications := " and other medications."
  const NoPrescriptions := "\nNo prescriptions were recorded for this visit."

  /** The line that opens visit i. */
  function VisitHeading(i: nat, date: string): string {
    "ADMISSION " + NatToString(i) + " (" + date + "):\n"
  }

  /** A paragraph up to the listed findings: at most five of them. */
  function Opening(i: nat, date: string, diags: seq<string>): string {
    VisitHeading(i, date) + Admitted +
    FindingsIntro + Join(Prefix(diags, 5), ", ")
  }

  /** The paragraph of visit i with the visit's distinct diagnoses and drugs,
      in the order it is grown. */
  function Paragraph(i: nat, date: string, diags: seq<string>, meds: seq<string>): string {
    var findings := Opening(i, date, diags) + (if |diags| > 5 then AmongOthers else ".");
    if |meds| > 0 then
      var treated := findings + TreatmentIntro + Join(Prefix(meds, 5), ", ");
      if |meds| > 5 then treated + OtherMedications else treated
    else
      findings + NoPrescriptions
  }

  /** The paragraph of the i-th admission of the patient. */
  function VisitParagraph(i: nat, a: Admission, diags: seq<TitledDiagnosis>, rx: seq<Prescription>): string {
    Paragraph(i, DatePart(a.admitTime), UniqueTitles(diags, a.hadmId), UniqueDrugs(rx, a.hadmId))
  }

  /** The items of summary_text: the two header lines, then one paragraph per
      admission, numbered from 1, each followed by a new line. */
  function SummaryLines(id: nat, admissions: seq<Admission>, diags: seq<TitledDiagnosis>,
                        rx: seq<Prescription>): (lines: seq<string>)
    ensures |lines| == |admissions| + 2
  {
    [Banner(id), CountLine(id, |admissions|)] +
    seq(|admissions|, k requires 0 <= k < |admissions| => VisitParagraph(k + 1, admissions[k], diags, rx) + "\n")
  }

  /** summarize_patient(id), the admissions table being in admittime order. */
  function PatientSummary(id: nat, adm: seq<Admission>, diags: seq<TitledDiagnosis>, rx: seq<Prescription>): string {
    var admissions := PatientAdmissions(adm, id);
    if admissions == [] then NoRecords(id) else Join(SummaryLines(id, admissions, diags, rx), "\n")
  }

  /** The paragraph of one visit, grown clause by clause. */
  method DraftParagraph(i: nat, date: string, visitDiags: seq<string>, visitMeds: seq<string>)
    returns (paragraph: string)
    ensures paragraph == Paragraph(i, date, visitDiags, visitMeds)
  {
    paragraph := Opening(i, date, visitDiags);
    if |visitDiags| > 5 {
      paragraph := paragraph + AmongOthers;
    } else {
      paragraph := paragraph + ".";
    }
    if |visitMeds| > 0 {
      paragraph := paragraph + TreatmentIntro + Join(Prefix(visitMeds, 5), ", ");
      if |visitMeds| > 5 {
        paragraph := paragraph + OtherMedications;
      }
    } else {
      paragraph := paragraph + NoPrescriptions;
    }
  }

  /** summarize_patient: the header lines, then a paragraph per admission. */
  method SummarizePatient(id: nat, adm: seq<Admission>, diags: seq<TitledDiagnosis>, rx: seq<Prescription>)
    returns (text: string)
    ensures text == PatientSummary(id, adm, diags, rx)
  {
    var admissions := PatientAdmissions(adm, id);
    if admissions == [] {
      return NoRecords(id);
    }
    ghost var all := SummaryLines(id, admissions, diags, rx);
    var summaryText := [Banner(id)];
    summaryText := summaryText + [CountLine(id, |admissions|)];
    assert all[0] == Banner(id) && all[1] == CountLine(id, |admissions|);
    assert summaryText == all[..2];
    var i := 0;
    while i < |admissions|
      invariant 0 <= i <= |admissions|
      invariant summaryText == all[..i + 2]
    {
      var a := admissions[i];
      var date := DatePart(a.admitTime);
      var visitDiags := UniqueTitles(diags, a.hadmId);
      var visitMeds := UniqueDrugs(rx, a.hadmId);
      var paragraph := DraftParagraph(i + 1, date, visitDiags, visitMeds);
      assert all[i + 2] == paragraph + "\n";
      TakeSnoc(all, i + 2);
      summaryText := summaryText + [paragraph + "\n"];
      i := i + 1;
    }
    assert summaryText == all;
    text := Join(summaryText, "\n");
    assert text == Join(all, "\n") == PatientSummary(id, adm, diags, rx);
  }

  // ----- What the summary promises -----

  /** The no-records sentence is given for, and only for, a patient without
      admissions. */
  lemma NoRecordsIff(id: nat, adm: seq<Admission>, diags: seq<TitledDiagnosis>, rx: seq<Prescription>)
    ensures PatientSummary(id, adm, diags, rx) == NoRecords(id) <==> PatientAdmissions(adm, id) == []
  {
    var admissions := PatientAdmissions(adm, id);
    if admissions != [] {
      var lines := SummaryLines(id, admissions, diags, rx);
      assert lines[0] == Banner(id);
      JoinStartsWith(lines, "\n");
      assert PatientSummary(id, adm, diags, rx)[0] == '#' != NoRecords(id)[0];
    }
  }

  /** Every paragraph opens with its visit's number and date. */
  lemma ParagraphHeading(i: nat, date: string, diags: seq<string>, meds: seq<string>)
    ensures StartsWith(Paragraph(i, date, diags, meds), VisitHeading(i, date))
  {
    var opening := Opening(i, date, diags);
    ConcatStartsWith(VisitHeading(i, date), Admitted);
    StartsWithExtend(VisitHeading(i, date) + Admitted, VisitHeading(i, date),
                     FindingsIntro);
    StartsWithExtend(VisitHeading(i, date) + Admitted +
                     FindingsIntro, VisitHeading(i, date), Join(Prefix(diags, 5), ", "));
    var findings := opening + (if |diags| > 5 then AmongOthers else ".");
    StartsWithExtend(opening, VisitHeading(i, date), if |diags| > 5 then AmongOthers else ".");
    if |meds| > 0 {
      var treated := findings + TreatmentIntro + Join(Prefix(meds, 5), ", ");
      StartsWithExtend(findings, VisitHeading(i, date), TreatmentIntro);
      StartsWithExtend(findings + TreatmentIntro, VisitHeading(i, date),
                       Join(Prefix(meds, 5), ", "));
      StartsWithExtend(treated, VisitHeading(i, date), OtherMedications);
    } else {
      StartsWithExtend(findings, VisitHeading(i, date), NoPrescriptions);
    }
  }

  /** The summary's lines: a banner, the admission count, then one
      paragraph per admission. */
  lemma SummaryHeader(id: nat, admissions: seq<Admission>, diags: seq<TitledDiagnosis>, rx: seq<Prescription>)
    ensures SummaryLines(id, admissions, diags, rx)[0] == Banner(id)
    ensures SummaryLines(id, admissions, diags, rx)[1] == CountLine(id, |admissions|)
  {
  }

  /** Paragraph k + 2 of the summary is the k-th admission's, numbered k + 1
      in table order and dated by the admittime text before its first space. */
  lemma SummaryNumbering(id: nat, admissions: seq<Admission>, diags: seq<TitledDiagnosis>, rx: seq<Prescription>, k: nat)
    requires k < |admissions|
    ensures StartsWith(SummaryLines(id, admissions, diags, rx)[k + 2],
                       VisitHeading(k + 1, DatePart(admissions[k].admitTime)))
  {
    var a := admissions[k];
    var p := VisitParagraph(k + 1, a, diags, rx);
    assert SummaryLines(id, admissions, diags, rx)[k + 2] == p + "\n";
    ParagraphHeading(k + 1, DatePart(a.admitTime), UniqueTitles(diags, a.hadmId), UniqueDrugs(rx, a.hadmId));
    StartsWithExtend(p, VisitHeading(k + 1, DatePart(a.admitTime)), "\n");
  }

  /** AmongOthers follows the listed findings exactly when a distinct
      diagnosis of the visit is left out of them. */
  lemma FindingsOthersIff(i: nat, date: string, diags: seq<string>, meds: seq<string>)
    requires NoDups(diags)
    ensures StartsWith(Paragraph(i, date, diags, meds), Opening(i, date, diags) + AmongOthers) <==>
              exists x :: x in diags && x !in Prefix(diags, 5)
  {
    CapHidesIff(diags, 5);
    var opening := Opening(i, date, diags);
    var findings := opening + (if |diags| > 5 then AmongOthers else ".");
    var p := Paragraph(i, date, diags, meds);
    if |meds| > 0 {
      var treated := findings + TreatmentIntro + Join(Prefix(meds, 5), ", ");
      ConcatStartsWith(findings, TreatmentIntro);
      StartsWithExtend(findings + TreatmentIntro, findings, Join(Prefix(meds, 5), ", "));
      StartsWithExtend(treated, findings, OtherMedications);
    } else {
      ConcatStartsWith(findings, NoPrescriptions);
    }
    assert StartsWith(p, findings);
    if |diags| <= 5 {
      assert p[|opening|] == '.';
      assert (opening + AmongOthers)[|opening|] == ',';
    }
  }

  /** A visit without drugs ends with the no-prescriptions sentence. */
  lemma NoTreatmentEnding(i: nat, date: string, diags: seq<string>, meds: seq<string>)
    requires meds == []
    ensures EndsWith(Paragraph(i, date, diags, meds), NoPrescriptions)
  {
    var findings := Opening(i, date, diags) + (if |diags| > 5 then AmongOthers else ".");
    ConcatEndsWith(findings, NoPrescriptions);
  }

  /** A visit with more than five drugs ends with OtherMedications. */
  lemma OtherMedicationsEnding(i: nat, date: string, diags: seq<string>, meds: seq<string>)
    requires |meds| > 5
    ensures EndsWith(Paragraph(i, date, diags, meds), OtherMedications)
  {
    var findings := Opening(i, date, diags) + (if |diags| > 5 then AmongOthers else ".");
    var treated := findings + TreatmentIntro + Join(Prefix(meds, 5), ", ");
    ConcatEndsWith(treated, OtherMedications);
  }

  /** A visit with one to five drugs ends with all of them listed, and with
      no closing full stop. */
  lemma ListedTreatmentEnding(i: nat, date: string, diags: seq<string>, meds: seq<string>)
    requires 0 < |meds| <= 5
    ensures EndsWith(Paragraph(i, date, diags, meds), TreatmentIntro + Join(meds, ", "))
  {
    var findings := Opening(i, date, diags) + (if |diags| > 5 then AmongOthers else ".");
    assert Prefix(meds, 5) == meds;
    EndsWithAfter(findings, TreatmentIntro, Join(meds, ", "));
  }
}

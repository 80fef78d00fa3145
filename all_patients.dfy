/** pipelineScalingCode/summarize_all_patients.py: get_patient_summary
    writes one patient's history as a block with a line per visit listing
    up to ten of its diagnoses and drugs, each once; the driver writes the
    block of every patient of the admissions table, one after the other. */
module AllPatients {
  import opened Wrappers
  import opened Text
  import opened Clinical

  const NoDiagnoses := "No recorded diagnoses"
  const NoMedications := "No recorded medications"
  const DiagnosesLabel := "  * DIAGNOSES: "
  const MedicationsLabel := "  * MEDICATIONS: "

  /** A list as the block shows it: its first ten items, or the given text
      when it is empty, followed by "..." when items are left out. */
  function CappedText(items: seq<string>, empty: string): string {
    (if |items| > 0 then Join(Prefix(items, 10), ", ") else empty) + (if |items| > 10 then "..." else "")
  }

  /** The first line of a block. */
  function Banner(id: nat, n: nat): string {
    "=== PATIENT " + NatToString(id) + " HISTORY (" + NatToString(n) + " visits) ==="
  }

  /** The line that opens visit i. */
  function VisitHeading(i: nat, date: string): string {
    "\n[Visit " + NatToString(i) + " - " + date + "]\n"
  }

  /** The closing item of a block: a line of sixty dashes between blank lines. */
  function Separator(): string {
    "\n" + Repeat('-', 60) + "\n"
  }

  /** visit_summary for visit i, with its diagnosis and medication texts. */
  function VisitSummary(i: nat, date: string, diagText: string, medText: string): string {
    VisitHeading(i, date) + DiagnosesLabel + diagText + "\n" + MedicationsLabel + medText
  }

  /** The visit_summary of the i-th admission; listSet lists a set's values. */
  function VisitText(i: nat, a: Admission, diags: seq<TitledDiagnosis>, rx: seq<Prescription>,
                     listSet: seq<string> -> seq<string>): string {
    VisitSummary(i, DatePart(a.admitTime),
                 CappedText(listSet(VisitTitles(diags, a.hadmId)), NoDiagnoses),
                 CappedText(listSet(VisitDrugs(rx, a.hadmId)), NoMedications))
  }

  /** The items of text_block: the banner, one visit_summary per admission,
      numbered from 1, and the separator. */
  function BlockLines(id: nat, admissions: seq<Admission>, diags: seq<TitledDiagnosis>, rx: seq<Prescription>,
                      listSet: seq<string> -> seq<string>): (lines: seq<string>)
    ensures |lines| == |admissions| + 2
  {
    [Banner(id, |admissions|)] +
    seq(|admissions|, k requires 0 <= k < |admissions| => VisitText(k + 1, admissions[k], diags, rx, listSet)) +
    [Separator()]
  }

  /** get_patient_summary(id): None for a patient without admissions. */
  function PatientSummary(id: nat, adm: seq<Admission>, diags: seq<TitledDiagnosis>, rx: seq<Prescription>,
                          listSet: seq<string> -> seq<string>): Option<string> {
    var admissions := PatientAdmissions(adm, id);
    if admissions == [] then None else Some(Join(BlockLines(id, admissions, diags, rx, listSet), "\n"))
  }

  /** One visit's summary: the set of its titles and of its drugs, each cut
      at ten with "..." when longer, or the no-record text when empty. */
  method DraftVisit(i: nat, a: Admission, diags: seq<TitledDiagnosis>, rx: seq<Prescription>,
                    listSet: seq<string> -> seq<string>) returns (visitSummary: string)
    ensures visitSummary == VisitText(i, a, diags, rx, listSet)
  {
    var dateStr := DatePart(a.admitTime);
    var visitDiags := listSet(VisitTitles(diags, a.hadmId));
    var visitMeds := listSet(VisitDrugs(rx, a.hadmId));
    var diagText := if |visitDiags| > 0 then Join(Prefix(visitDiags, 10), ", ") else NoDiagnoses;
    if |visitDiags| > 10 {
      diagText := diagText + "...";
    }
    assert diagText == CappedText(visitDiags, NoDiagnoses);
    var medText := if |visitMeds| > 0 then Join(Prefix(visitMeds, 10), ", ") else NoMedications;
    if |visitMeds| > 10 {
      medText := medText + "...";
    }
    assert medText == CappedText(visitMeds, NoMedications);
    visitSummary := VisitHeading(i, dateStr) + DiagnosesLabel + diagText + "\n" + MedicationsLabel + medText;
  }

  /** get_patient_summary: the banner, a summary per admission, the separator. */
  method GetPatientSummary(id: nat, adm: seq<Admission>, diags: seq<TitledDiagnosis>, rx: seq<Prescription>,
                           listSet: seq<string> -> seq<string>) returns (summary: Option<string>)
    ensures summary == PatientSummary(id, adm, diags, rx, listSet)
  {
    var admissions := PatientAdmissions(adm, id);
    if admissions == [] {
      return None;
    }
    ghost var all := BlockLines(id, admissions, diags, rx, listSet);
    var textBlock := [Banner(id, |admissions|)];
    assert textBlock == all[..1];
    var i := 0;
    while i < |admissions|
      invariant 0 <= i <= |admissions|
      invariant textBlock == all[..i + 1]
    {
      var visitSummary := DraftVisit(i + 1, admissions[i], diags, rx, listSet);
      assert all[i + 1] == visitSummary;
      TakeSnoc(all, i + 1);
      textBlock := textBlock + [visitSummary];
      i := i + 1;
    }
    assert all == all[..|admissions| + 1] + [Separator()];
    textBlock := textBlock + [Separator()];
    assert textBlock == all;
    summary := Some(Join(textBlock, "\n"));
  }

  /** What the driver writes for the given patients: their blocks, one after
      the other, skipping those without one. */
  function Written(ids: seq<nat>, adm: seq<Admission>, diags: seq<TitledDiagnosis>, rx: seq<Prescription>,
                   listSet: seq<string> -> seq<string>): string
    decreases |ids|
  {
    if ids == [] then ""
    else
      var summary := PatientSummary(ids[|ids| - 1], adm, diags, rx, listSet);
      Written(ids[..|ids| - 1], adm, diags, rx, listSet) + (if summary.Some? then summary.value else "")
  }

  /** One more patient adds its text, if it has one. */
  lemma WrittenStep(ids: seq<nat>, i: nat, adm: seq<Admission>, diags: seq<TitledDiagnosis>, rx: seq<Prescription>, 
                    listSet: seq<string> -> seq<string>)
    requires i < |ids|
    ensures var text := PatientSummary(ids[i], adm, diags, rx, listSet);
            Written(ids[..i + 1], adm, diags, rx, listSet) ==
            Written(ids[..i], adm, diags, rx, listSet) + (if text.Some? then text.value else "")
  {
    assert ids[..i + 1][..i] == ids[..i];
  }

  /** The loop over df_adm['subject_id'].unique() writing full_mimic_summaries.txt. */
  method WriteAll(adm: seq<Admission>, diags: seq<TitledDiagnosis>, rx: seq<Prescription>,
                  listSet: seq<string> -> seq<string>) returns (file: string)
    ensures file == Written(SubjectIds(adm), adm, diags, rx, listSet)
  {
    var allPatients := SubjectIds(adm);
    file := "";
    var i := 0;
    while i < |allPatients|
      invariant 0 <= i <= |allPatients|
      invariant file == Written(allPatients[..i], adm, diags, rx, listSet)
    {
      var summary := GetPatientSummary(allPatients[i], adm, diags, rx, listSet);
      WrittenStep(allPatients, i, adm, diags, rx, listSet);
      if summary.Some? {
        file := file + summary.value;
      }
      i := i + 1;
    }
    assert allPatients[..i] == allPatients;
  }

  // ----- What the summaries promise -----

  /** Every patient the driver goes through has a block: none is skipped. */
  lemma EveryPatientWritten(adm: seq<Admission>, diags: seq<TitledDiagnosis>, rx: seq<Prescription>,
                            listSet: seq<string> -> seq<string>, id: nat)
    requires id in SubjectIds(adm)
    ensures PatientSummary(id, adm, diags, rx, listSet).Some?
  {
    SubjectIdsHaveAdmissions(adm, id);
  }

  /** A block opens with the banner counting the patient's visits and closes
      with the line of sixty dashes and a new line. */
  lemma BlockLayout(id: nat, adm: seq<Admission>, diags: seq<TitledDiagnosis>, rx: seq<Prescription>,
                    listSet: seq<string> -> seq<string>)
    requires PatientSummary(id, adm, diags, rx, listSet).Some?
    ensures var block := PatientSummary(id, adm, diags, rx, listSet).value;
            StartsWith(block, Banner(id, |PatientAdmissions(adm, id)|)) &&
            EndsWith(block, Repeat('-', 60) + "\n")
  {
    var admissions := PatientAdmissions(adm, id);
    var lines := BlockLines(id, admissions, diags, rx, listSet);
    assert lines[0] == Banner(id, |admissions|);
    assert lines[|lines| - 1] == Separator();
    JoinedBlockEnds(lines, Banner(id, |admissions|));
  }

  /** Lines that open with a banner and close with the separator join into
      text that starts with the banner and ends with the dashes. */
  lemma JoinedBlockEnds(lines: seq<string>, banner: string)
    requires |lines| >= 2 && lines[0] == banner && lines[|lines| - 1] == Separator()
    ensures StartsWith(Join(lines, "\n"), banner)
    ensures EndsWith(Join(lines, "\n"), Repeat('-', 60) + "\n")
  {
    var init := lines[..|lines| - 1];
    var head := Join(init, "\n");
    var tail := Repeat('-', 60) + "\n";
    assert lines == init + [Separator()];
    JoinStartsWith(init, "\n");
    JoinSnoc(init, Separator(), "\n");
    assert head + "\n" + Separator() == (head + "\n" + "\n") + tail;
    StartsWithExtend(head, banner, "\n" + "\n" + tail);
    ConcatEndsWith(head + "\n" + "\n", tail);
  }

  /** Item k + 1 of a block is the k-th admission's, numbered k + 1 in
      admittime order and dated by the admittime text before its first space. */
  lemma VisitNumbering(id: nat, admissions: seq<Admission>, diags: seq<TitledDiagnosis>, rx: seq<Prescription>,
                       listSet: seq<string> -> seq<string>, k: nat)
    requires k < |admissions|
    ensures StartsWith(BlockLines(id, admissions, diags, rx, listSet)[k + 1],
                       VisitHeading(k + 1, DatePart(admissions[k].admitTime)))
  {
    var a := admissions[k];
    var heading := VisitHeading(k + 1, DatePart(a.admitTime));
    var diagText := CappedText(listSet(VisitTitles(diags, a.hadmId)), NoDiagnoses);
    var medText := CappedText(listSet(VisitDrugs(rx, a.hadmId)), NoMedications);
    assert BlockLines(id, admissions, diags, rx, listSet)[k + 1] ==
           heading + DiagnosesLabel + diagText + "\n" + MedicationsLabel + medText;
    ConcatStartsWith(heading, DiagnosesLabel);
    StartsWithExtend(heading + DiagnosesLabel, heading, diagText);
    StartsWithExtend(heading + DiagnosesLabel + diagText, heading, "\n");
    StartsWithExtend(heading + DiagnosesLabel + diagText + "\n", heading, MedicationsLabel);
    StartsWithExtend(heading + DiagnosesLabel + diagText + "\n" + MedicationsLabel, heading, medText);
  }

  /** The diagnoses line of a visit: "No recorded diagnoses" when no title
      is joined to it; otherwise its first ten distinct titles, each a title
      of the visit, followed by "..." exactly when a title is left out. */
  lemma DiagnosesText(listSet: seq<string> -> seq<string>, diags: seq<TitledDiagnosis>, hadmId: nat)
    requires ListsSets(listSet)
    ensures var listed := listSet(VisitTitles(diags, hadmId));
            var shown := Prefix(listed, 10);
            var text := CappedText(listed, NoDiagnoses);
            && ((forall t :: TitledDiagnosis(hadmId, t) !in diags) ==> text == NoDiagnoses)
            && |shown| <= 10 && NoDups(shown)
            && (forall t :: t in shown ==> TitledDiagnosis(hadmId, t) in diags)
            && ((exists t :: TitledDiagnosis(hadmId, t) in diags && t !in shown) ==>
                  text == Join(shown, ", ") + "...")
            && ((exists t :: TitledDiagnosis(hadmId, t) in diags) &&
                (forall t :: TitledDiagnosis(hadmId, t) in diags ==> t in shown) ==>
                  text == Join(listed, ", "))
  {
    var titles := VisitTitles(diags, hadmId);
    var listed := listSet(titles);
    var shown := Prefix(listed, 10);
    ShownOfSet(listSet, titles, 10);
    forall t ensures t in titles <==> TitledDiagnosis(hadmId, t) in diags {
      VisitTitlesExactly(diags, hadmId, t);
    }
    if listed != [] {
      assert listed[0] in titles;
      assert TitledDiagnosis(hadmId, listed[0]) in diags;
    }
  }

  /** The same for the medications line and the drugs of the visit. */
  lemma MedicationsText(listSet: seq<string> -> seq<string>, rx: seq<Prescription>, hadmId: nat)
    requires ListsSets(listSet)
    ensures var listed := listSet(VisitDrugs(rx, hadmId));
            var shown := Prefix(listed, 10);
            var text := CappedText(listed, NoMedications);
            && ((forall d :: Prescription(hadmId, d) !in rx) ==> text == NoMedications)
            && |shown| <= 10 && NoDups(shown)
            && (forall d :: d in shown ==> Prescription(hadmId, d) in rx)
            && ((exists d :: Prescription(hadmId, d) in rx && d !in shown) ==>
                  text == Join(shown, ", ") + "...")
            && ((exists d :: Prescription(hadmId, d) in rx) &&
                (forall d :: Prescription(hadmId, d) in rx ==> d in shown) ==>
                  text == Join(listed, ", "))
  {
    var drugs := VisitDrugs(rx, hadmId);
    var listed := listSet(drugs);
    var shown := Prefix(listed, 10);
    ShownOfSet(listSet, drugs, 10);
    forall d ensures d in drugs <==> Prescription(hadmId, d) in rx {
      VisitDrugsExactly(rx, hadmId, d);
    }
    if listed != [] {
      assert listed[0] in drugs;
      assert Prescription(hadmId, listed[0]) in rx;
    }
  }
}

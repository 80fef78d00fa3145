/** pipelineScalingCode/longitudinal_story_generator.py: one patient's
    admissions told as a story, the first visit as the initial presentation
    and each later one as a readmission so many days after the previous
    discharge; the driver writes the story of every patient of the table. */
module Longitudinal {
  import opened Wrappers
  import opened Text
  import opened Clinical

  /** Seconds in a day: the unit of timedelta.days. */
  const SecondsPerDay := 86400

  // The fixed clauses of the story.
  const InitialLabel := "INITIAL PRESENTATION ("
  const FirstAdmitted := "The patient was first admitted for "
  const ReadmissionLabel := "READMISSION ("
  const DaysLater := " days later):\n"
  const Returned := "The patient returned to the hospital presenting with "
  const UnknownConditions := "unknown conditions"

  function Header(id: nat): string {
    "### PATIENT " + NatToString(id) + " LONGITUDINAL HISTORY ###"
  }

  /** The line giving the first and last admission dates and the count. */
  function Tracked(startDate: string, endDate: string, n: nat): string {
    "Patient tracked from " + startDate + " to " + endDate + " (" + NatToString(n) + " total visits).\n"
  }

  /** The closing item: a line of sixty '=' between blank lines. */
  function Closing(): string {
    "\n" + Repeat('=', 60) + "\n"
  }

  /** (curr_admit - prev_discharge).days, the times in seconds: whole days,
      rounded down, so an admission before the previous discharge gives a
      negative count. */
  function GapDays(admitAt: int, prevDischAt: int): int {
    (admitAt - prevDischAt) / SecondsPerDay
  }

  /** diag_str: the first five of the visit's listed titles, or the text for
      a visit without diagnoses. */
  function DiagnosisText(listed: seq<string>): string {
    if |listed| > 0 then Join(Prefix(listed, 5), ", ") else UnknownConditions
  }

  function InitialHeading(date: string): string {
    InitialLabel + date + "):\n"
  }

  function ReadmissionHeading(date: string, gap: int): string {
    ReadmissionLabel + date + ", " + IntToString(gap) + DaysLater
  }

  function InitialParagraph(date: string, diagText: string): string {
    InitialHeading(date) + FirstAdmitted + diagText + "."
  }

  function ReadmissionParagraph(date: string, gap: int, diagText: string): string {
    ReadmissionHeading(date, gap) + Returned + diagText + "."
  }

  /** The paragraph of the k-th admission (from 0): the initial presentation
      for the first, a readmission dated against the previous discharge for
      the others. */
  function StoryParagraph(admissions: seq<Admission>, k: nat, diags: seq<TitledDiagnosis>,
                          listSet: seq<string> -> seq<string>): string
    requires k < |admissions|
  {
    var a := admissions[k];
    var diagText := DiagnosisText(listSet(VisitTitles(diags, a.hadmId)));
    if k == 0 then InitialParagraph(DatePart(a.admitTime), diagText)
    else ReadmissionParagraph(DatePart(a.admitTime), GapDays(a.admitAt, admissions[k - 1].dischAt), diagText)
  }

  /** The items of story: the header, the tracked line, a paragraph per
      admission, and the closing line. */
  function StoryLines(id: nat, admissions: seq<Admission>, diags: seq<TitledDiagnosis>,
                      listSet: seq<string> -> seq<string>): (lines: seq<string>)
    requires admissions != []
    ensures |lines| == |admissions| + 3
  {
    [Header(id),
     Tracked(DatePart(admissions[0].admitTime), DatePart(admissions[|admissions| - 1].admitTime), |admissions|)] +
    seq(|admissions|, k requires 0 <= k < |admissions| => StoryParagraph(admissions, k, diags, listSet)) +
    [Closing()]
  }

  /** generate_longitudinal_story(id): None for a patient without admissions. */
  function Story(id: nat, adm: seq<Admission>, diags: seq<TitledDiagnosis>,
                 listSet: seq<string> -> seq<string>): Option<string> {
    var admissions := PatientAdmissions(adm, id);
    if admissions == [] then None else Some(Join(StoryLines(id, admissions, diags, listSet), "\n"))
  }

  /** The paragraph of visit i (from 1); prevDischarge is the discharge
      time of the previous visit, None at the first. */
  method DraftParagraph(i: nat, admissions: seq<Admission>, prevDischarge: Option<int>,
                        diags: seq<TitledDiagnosis>, listSet: seq<string> -> seq<string>)
    returns (paragraph: string)
    requires 1 <= i <= |admissions|
    requires i == 1 <==> prevDischarge == None
    requires i > 1 ==> prevDischarge == Some(admissions[i - 2].dischAt)
    ensures paragraph == StoryParagraph(admissions, i - 1, diags, listSet)
  {
    var a := admissions[i - 1];
    var visitDiags := listSet(VisitTitles(diags, a.hadmId));
    var diagStr := if |visitDiags| > 0 then Join(Prefix(visitDiags, 5), ", ") else UnknownConditions;
    var dateStr := DatePart(a.admitTime);
    assert diagStr == DiagnosisText(visitDiags);
    if i == 1 {
      paragraph := InitialHeading(dateStr) + FirstAdmitted + diagStr + ".";
      assert paragraph == InitialParagraph(dateStr, diagStr);
    } else {
      var gap := (a.admitAt - prevDischarge.value) / SecondsPerDay;
      paragraph := ReadmissionHeading(dateStr, gap) + Returned + diagStr + ".";
      assert gap == GapDays(a.admitAt, admissions[i - 2].dischAt);
      assert paragraph == ReadmissionParagraph(dateStr, gap, diagStr);
    }
  }

  /** generate_longitudinal_story: the header lines, the timeline, the closing line. */
  method GenerateStory(id: nat, adm: seq<Admission>, diags: seq<TitledDiagnosis>,
                       listSet: seq<string> -> seq<string>) returns (summary: Option<string>)
    ensures summary == Story(id, adm, diags, listSet)
  {
    var admissions := PatientAdmissions(adm, id);
    if admissions == [] {
      return None;
    }
    ghost var all := StoryLines(id, admissions, diags, listSet);
    var startDate := DatePart(admissions[0].admitTime);
    var endDate := DatePart(admissions[|admissions| - 1].admitTime);
    var story := [Header(id)];
    story := story + [Tracked(startDate, endDate, |admissions|)];
    assert all[0] == Header(id) && all[1] == Tracked(startDate, endDate, |admissions|);
    assert story == all[..2];
    var prevDischarge: Option<int> := None;
    var i := 0;
    while i < |admissions|
      invariant 0 <= i <= |admissions|
      invariant story == all[..i + 2]
      invariant i == 0 <==> prevDischarge == None
      invariant i > 0 ==> prevDischarge == Some(admissions[i - 1].dischAt)
    {
      var paragraph := DraftParagraph(i + 1, admissions, prevDischarge, diags, listSet);
      assert all[i + 2] == paragraph;
      TakeSnoc(all, i + 2);
      story := story + [paragraph];
      prevDischarge := Some(admissions[i].dischAt);
      i := i + 1;
    }
    assert all == all[..|admissions| + 2] + [Closing()];
    story := story + [Closing()];
    summary := Some(Join(story, "\n"));
  }

  /** What the driver writes for the given patients: their stories, one
      after the other, skipping those without one. */
  function Written(ids: seq<nat>, adm: seq<Admission>, diags: seq<TitledDiagnosis>,
                   listSet: seq<string> -> seq<string>): string
    decreases |ids|
  {
    if ids == [] then ""
    else
      var story := Story(ids[|ids| - 1], adm, diags, listSet);
      Written(ids[..|ids| - 1], adm, diags, listSet) + (if story.Some? then story.value else "")
  }

  /** One more patient adds its text, if it has one. */
  lemma WrittenStep(ids: seq<nat>, i: nat, adm: seq<Admission>, diags: seq<TitledDiagnosis>, 
                    listSet: seq<string> -> seq<string>)
    requires i < |ids|
    ensures var text := Story(ids[i], adm, diags, listSet);
            Written(ids[..i + 1], adm, diags, listSet) ==
            Written(ids[..i], adm, diags, listSet) + (if text.Some? then text.value else "")
  {
    assert ids[..i + 1][..i] == ids[..i];
  }

  /** The loop over df_adm['subject_id'].unique() writing longitudinal_patient_stories.txt. */
  method WriteAll(adm: seq<Admission>, diags: seq<TitledDiagnosis>,
                  listSet: seq<string> -> seq<string>) returns (file: string)
    ensures file == Written(SubjectIds(adm), adm, diags, listSet)
  {
    var allPatients := SubjectIds(adm);
    file := "";
    var i := 0;
    while i < |allPatients|
      invariant 0 <= i <= |allPatients|
      invariant file == Written(allPatients[..i], adm, diags, listSet)
    {
      var summary := GenerateStory(allPatients[i], adm, diags, listSet);
      WrittenStep(allPatients, i, adm, diags, listSet);
      if summary.Some? {
        file := file + summary.value;
      }
      i := i + 1;
    }
    assert allPatients[..i] == allPatients;
  }

  // ----- What the story promises -----

  /** The gap is the whole number of days between the previous discharge and
      this admission, rounded down: negative exactly when the admission
      comes before that discharge. */
  lemma GapFloor(admitAt: int, prevDischAt: int)
    ensures var gap := GapDays(admitAt, prevDischAt);
            gap * SecondsPerDay <= admitAt - prevDischAt < gap * SecondsPerDay + SecondsPerDay
    ensures GapDays(admitAt, prevDischAt) < 0 <==> admitAt < prevDischAt
  {
    var d := admitAt - prevDischAt;
    var gap := GapDays(admitAt, prevDischAt);
    assert d == gap * SecondsPerDay + d % SecondsPerDay;
  }

  /** Every patient the driver goes through has a story: none is skipped. */
  lemma EveryPatientWritten(adm: seq<Admission>, diags: seq<TitledDiagnosis>,
                            listSet: seq<string> -> seq<string>, id: nat)
    requires id in SubjectIds(adm)
    ensures Story(id, adm, diags, listSet).Some?
  {
    SubjectIdsHaveAdmissions(adm, id);
  }

  /** A story opens with the header, then tracks the patient from the first
      admission's date to the last one's over all visits, and closes with
      the line of sixty '=' and a new line. */
  lemma StoryLayout(id: nat, admissions: seq<Admission>, diags: seq<TitledDiagnosis>,
                    listSet: seq<string> -> seq<string>)
    requires admissions != []
    ensures var lines := StoryLines(id, admissions, diags, listSet);
            var story := Join(lines, "\n");
            && StartsWith(story, Header(id))
            && lines[1] == Tracked(DatePart(admissions[0].admitTime),
                                   DatePart(admissions[|admissions| - 1].admitTime), |admissions|)
            && EndsWith(story, Repeat('=', 60) + "\n")
  {
    var lines := StoryLines(id, admissions, diags, listSet);
    var init := lines[..|lines| - 1];
    var head := Join(init, "\n");
    var tail := Repeat('=', 60) + "\n";
    assert lines == init + [Closing()];
    assert init[0] == Header(id);
    JoinStartsWith(init, "\n");
    JoinSnoc(init, Closing(), "\n");
    assert head + "\n" + Closing() == (head + "\n" + "\n") + tail;
    StartsWithExtend(head, Header(id), "\n" + "\n" + tail);
    ConcatEndsWith(head + "\n" + "\n", tail);
  }

  /** Paragraph k (from 0) opens as the initial presentation exactly when it
      is the first; every other one is headed as a readmission with its
      date and the gap since the previous discharge. */
  lemma TimelineHeadings(admissions: seq<Admission>, k: nat, diags: seq<TitledDiagnosis>,
                         listSet: seq<string> -> seq<string>)
    requires k < |admissions|
    ensures var p := StoryParagraph(admissions, k, diags, listSet);
            var date := DatePart(admissions[k].admitTime);
            && (StartsWith(p, InitialLabel) <==> k == 0)
            && (k == 0 ==> StartsWith(p, InitialHeading(date)))
            && (k > 0 ==> StartsWith(p, ReadmissionHeading(date, GapDays(admissions[k].admitAt,
                                                                         admissions[k - 1].dischAt))))
  {
    var a := admissions[k];
    var date := DatePart(a.admitTime);
    var diagText := DiagnosisText(listSet(VisitTitles(diags, a.hadmId)));
    var p := StoryParagraph(admissions, k, diags, listSet);
    if k == 0 {
      var h := InitialHeading(date);
      assert p == h + FirstAdmitted + diagText + ".";
      ConcatStartsWith(h, FirstAdmitted);
      StartsWithExtend(h + FirstAdmitted, h, diagText);
      StartsWithExtend(h + FirstAdmitted + diagText, h, ".");
      assert p[0] == h[0] == InitialLabel[0];
      ConcatStartsWith(InitialLabel, date);
      StartsWithExtend(InitialLabel + date, InitialLabel, "):\n");
      assert StartsWith(p, InitialLabel);
    } else {
      var h := ReadmissionHeading(date, GapDays(a.admitAt, admissions[k - 1].dischAt));
      assert p == h + Returned + diagText + ".";
      ConcatStartsWith(h, Returned);
      StartsWithExtend(h + Returned, h, diagText);
      StartsWithExtend(h + Returned + diagText, h, ".");
      assert p[0] == h[0] == ReadmissionLabel[0] != InitialLabel[0];
    }
  }

  /** A visit's diagnosis text: "unknown conditions" when no title is joined
      to it, otherwise its first five distinct titles, each a title of the
      visit, and all of them when it has no more than five. */
  lemma DiagnosisTextShown(listSet: seq<string> -> seq<string>, diags: seq<TitledDiagnosis>, hadmId: nat)
    requires ListsSets(listSet)
    ensures var listed := listSet(VisitTitles(diags, hadmId));
            var shown := Prefix(listed, 5);
            var text := DiagnosisText(listed);
            && ((forall t :: TitledDiagnosis(hadmId, t) !in diags) <==> text == UnknownConditions && listed == [])
            && ((exists t :: TitledDiagnosis(hadmId, t) in diags) ==> text == Join(shown, ", "))
            && |shown| <= 5 && NoDups(shown)
            && (forall t :: t in shown ==> TitledDiagnosis(hadmId, t) in diags)
            && (|listed| <= 5 ==> forall t :: TitledDiagnosis(hadmId, t) in diags ==> t in shown)
  {
    var titles := VisitTitles(diags, hadmId);
    var listed := listSet(titles);
    ShownOfSet(listSet, titles, 5);
    forall t ensures t in titles <==> TitledDiagnosis(hadmId, t) in diags {
      VisitTitlesExactly(diags, hadmId, t);
    }
    if listed != [] {
      assert listed[0] in titles;
      assert TitledDiagnosis(hadmId, listed[0]) in diags;
    }
  }
}

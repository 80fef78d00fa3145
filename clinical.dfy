/** The MIMIC-IV tables the per-patient renderers read, and the pandas
    selections they make on them: the admissions of one patient, the
    diagnoses table merged with the ICD dictionary, and the distinct
    diagnosis titles and drugs of one visit. */
module Clinical {
  import opened Text

  /** A row of admissions.csv.gz: the fields the renderers read. The
      admittime text is kept as read; admitAt and dischAt are admittime and
      dischtime as pd.to_datetime parses them, in seconds. */
  datatype Admission = Admission(subjectId: nat, hadmId: nat, admitTime: string, admitAt: int, dischAt: int)

  /** A row of diagnoses_icd.csv.gz. */
  datatype DiagnosisRow = DiagnosisRow(hadmId: nat, icdCode: string, icdVersion: nat)

  /** A row of d_icd_diagnoses.csv.gz. */
  datatype DictEntry = DictEntry(icdCode: string, icdVersion: nat, longTitle: string)

  /** A diagnosis row after the merge: the visit and the code's long title. */
  datatype TitledDiagnosis = TitledDiagnosis(hadmId: nat, longTitle: string)

  /** A row of prescriptions.csv.gz. */
  datatype Prescription = Prescription(hadmId: nat, drug: string)

  // ---------------------------------------------------------------- the inner merge

  predicate SameCode(row: DiagnosisRow, entry: DictEntry) {
    row.icdCode == entry.icdCode && row.icdVersion == entry.icdVersion
  }

  /** The merged rows one diagnosis row gives: one per dictionary entry with
      its code and version, in dictionary order. */
  function TitlesFor(row: DiagnosisRow, dict: seq<DictEntry>): seq<TitledDiagnosis>
    decreases |dict|
  {
    if dict == [] then []
    else
      var last := dict[|dict| - 1];
      TitlesFor(row, dict[..|dict| - 1]) +
      (if SameCode(row, last) then [TitledDiagnosis(row.hadmId, last.longTitle)] else [])
  }

  /** pd.merge(diagnoses, dictionary, on=[icd_code, icd_version], how='inner'):
      the diagnosis rows in their own order, each repeated once per matching
      dictionary entry; a row whose code is not in the dictionary is dropped. */
  function MergeTitles(diags: seq<DiagnosisRow>, dict: seq<DictEntry>): seq<TitledDiagnosis>
    decreases |diags|
  {
    if diags == [] then []
    else MergeTitles(diags[..|diags| - 1], dict) + TitlesFor(diags[|diags| - 1], dict)
  }

  lemma {:induction false} TitlesForExactly(row: DiagnosisRow, dict: seq<DictEntry>, d: TitledDiagnosis)
    ensures d in TitlesFor(row, dict) <==>
              d.hadmId == row.hadmId &&
              exists j :: 0 <= j < |dict| && SameCode(row, dict[j]) && dict[j].longTitle == d.longTitle
    decreases |dict|
  {
    if dict != [] {
      var init := dict[..|dict| - 1];
      TitlesForExactly(row, init, d);
      assert forall j :: 0 <= j < |init| ==> init[j] == dict[j];
    }
  }

  /** A diagnosis row and a dictionary entry that together give a merged row. */
  predicate Joins(diags: seq<DiagnosisRow>, dict: seq<DictEntry>, i: int, j: int, d: TitledDiagnosis) {
    0 <= i < |diags| && 0 <= j < |dict| && diags[i].hadmId == d.hadmId &&
    SameCode(diags[i], dict[j]) && dict[j].longTitle == d.longTitle
  }

  /** A merged row is a diagnosis row with the title of a dictionary entry
      of the same code and version, and every such pair gives one. */
  lemma {:induction false} MergeTitlesExactly(diags: seq<DiagnosisRow>, dict: seq<DictEntry>, d: TitledDiagnosis)
    ensures d in MergeTitles(diags, dict) <==> exists i, j :: Joins(diags, dict, i, j, d)
    decreases |diags|
  {
    if diags != [] {
      var init := diags[..|diags| - 1];
      var last := diags[|diags| - 1];
      MergeTitlesExactly(init, dict, d);
      TitlesForExactly(last, dict, d);
      if d in MergeTitles(init, dict) {
        var i, j :| Joins(init, dict, i, j, d);
        assert Joins(diags, dict, i, j, d);
      } else if d in TitlesFor(last, dict) {
        var j :| 0 <= j < |dict| && SameCode(last, dict[j]) && dict[j].longTitle == d.longTitle;
        assert Joins(diags, dict, |diags| - 1, j, d);
      }
      if exists i, j :: Joins(diags, dict, i, j, d) {
        var i, j :| Joins(diags, dict, i, j, d);
        if i < |init| {
          assert Joins(init, dict, i, j, d);
        } else {
          assert d in TitlesFor(last, dict);
        }
      }
    }
  }

  // ---------------------------------------------------------------- selections

  /** df_adm[df_adm.subject_id == id]: the patient's admissions in table order. */
  function PatientAdmissions(adm: seq<Admission>, id: nat): seq<Admission>
    decreases |adm|
  {
    if adm == [] then []
    else
      var last := adm[|adm| - 1];
      PatientAdmissions(adm[..|adm| - 1], id) + (if last.subjectId == id then [last] else [])
  }

  /** The selection holds exactly the patient's rows. */
  lemma {:induction false} PatientAdmissionsExactly(adm: seq<Admission>, id: nat, a: Admission)
    ensures a in PatientAdmissions(adm, id) <==> a in adm && a.subjectId == id
    decreases |adm|
  {
    if adm != [] {
      PatientAdmissionsExactly(adm[..|adm| - 1], id, a);
      assert adm == adm[..|adm| - 1] + [adm[|adm| - 1]];
    }
  }

  /** The titles of one visit's merged diagnoses, in row order, repeats kept. */
  function VisitTitles(diags: seq<TitledDiagnosis>, hadmId: nat): seq<string>
    decreases |diags|
  {
    if diags == [] then []
    else
      var last := diags[|diags| - 1];
      VisitTitles(diags[..|diags| - 1], hadmId) + (if last.hadmId == hadmId then [last.longTitle] else [])
  }

  lemma {:induction false} VisitTitlesExactly(diags: seq<TitledDiagnosis>, hadmId: nat, t: string)
    ensures t in VisitTitles(diags, hadmId) <==> TitledDiagnosis(hadmId, t) in diags
    decreases |diags|
  {
    if diags != [] {
      VisitTitlesExactly(diags[..|diags| - 1], hadmId, t);
      assert diags == diags[..|diags| - 1] + [diags[|diags| - 1]];
    }
  }

  /** The drugs prescribed in one visit, in row order, repeats kept. */
  function VisitDrugs(rx: seq<Prescription>, hadmId: nat): seq<string>
    decreases |rx|
  {
    if rx == [] then []
    else
      var last := rx[|rx| - 1];
      VisitDrugs(rx[..|rx| - 1], hadmId) + (if last.hadmId == hadmId then [last.drug] else [])
  }

  lemma {:induction false} VisitDrugsExactly(rx: seq<Prescription>, hadmId: nat, drug: string)
    ensures drug in VisitDrugs(rx, hadmId) <==> Prescription(hadmId, drug) in rx
    decreases |rx|
  {
    if rx != [] {
      VisitDrugsExactly(rx[..|rx| - 1], hadmId, drug);
      assert rx == rx[..|rx| - 1] + [rx[|rx| - 1]];
    }
  }

  /** ...['long_title'].unique() for one visit. */
  function UniqueTitles(diags: seq<TitledDiagnosis>, hadmId: nat): seq<string> {
    Distinct(VisitTitles(diags, hadmId))
  }

  /** ...['drug'].unique() for one visit. */
  function UniqueDrugs(rx: seq<Prescription>, hadmId: nat): seq<string> {
    Distinct(VisitDrugs(rx, hadmId))
  }

  /** An order in which Python may iterate set(values): each value once. */
  ghost predicate SetOrder(listing: seq<string>, values: seq<string>) {
    NoDups(listing) && forall x :: x in listing <==> x in values
  }

  /** list(set(values)) as one run of Python lists it: a fixed function of
      the values, which lists each of them once in an order left open. */
  ghost predicate ListsSets(listSet: seq<string> -> seq<string>) {
    forall values :: SetOrder(listSet(values), values)
  }

  /** The first `cap` values of a listed set: at most `cap`, no two alike,
      each one of the values, all of them when the set is no larger, and
      some value left out exactly when the set is larger. */
  lemma ShownOfSet(listSet: seq<string> -> seq<string>, values: seq<string>, cap: nat)
    requires ListsSets(listSet)
    ensures var listed := listSet(values);
            var shown := Prefix(listed, cap);
            && |shown| <= cap && NoDups(shown)
            && (forall x :: x in shown ==> x in values)
            && (|listed| <= cap ==> forall x :: x in values ==> x in shown)
            && (|listed| > cap <==> exists x :: x in values && x !in shown)
  {
    var listed := listSet(values);
    assert SetOrder(listed, values);
    var shown := Prefix(listed, cap);
    CapHidesIff(listed, cap);
    forall x | x in shown ensures x in values {
      assert x in listed;
    }
  }

  /** adm['admittime'].split(' ')[0]: the date part of the timestamp text. */
  function DatePart(admitTime: string): (date: string)
    ensures ' ' !in date && StartsWith(admitTime, date)
    ensures |date| < |admitTime| ==> admitTime[|date|] == ' '
  {
    FirstField(admitTime, ' ')
  }

  /** df_adm['subject_id'].unique(). */
  function SubjectIds(adm: seq<Admission>): seq<nat> {
    var ids: seq<nat> := seq(|adm|, k requires 0 <= k < |adm| => adm[k].subjectId);
    Distinct(ids)
  }

  /** Every id the table lists has at least one admission. */
  lemma SubjectIdsHaveAdmissions(adm: seq<Admission>, id: nat)
    requires id in SubjectIds(adm)
    ensures PatientAdmissions(adm, id) != []
  {
    var ids: seq<nat> := seq(|adm|, k requires 0 <= k < |adm| => adm[k].subjectId);
    var k :| 0 <= k < |adm| && ids[k] == id;
    PatientAdmissionsExactly(adm, id, adm[k]);
  }

  // ---------------------------------------------------------------- capped lists

  /** A list cut at `cap` items hides an item exactly when it is longer
      than `cap`: the "and others" suffixes mark real omissions. */
  lemma CapHidesIff<T>(items: seq<T>, cap: nat)
    requires NoDups(items)
    ensures |items| > cap <==> exists x :: x in items && x !in Prefix(items, cap)
  {
    if |items| > cap {
      assert items[cap] !in Prefix(items, cap);
    }
  }

  /** The first `cap` distinct titles of a visit: at most `cap` of them, no
      two alike, each a title of the visit, and all of them when fewer. */
  lemma ShownTitles(diags: seq<TitledDiagnosis>, hadmId: nat, cap: nat)
    ensures var shown := Prefix(UniqueTitles(diags, hadmId), cap);
            && |shown| <= cap && NoDups(shown)
            && (forall t :: t in shown ==> TitledDiagnosis(hadmId, t) in diags)
            && (|shown| < cap ==> forall t :: TitledDiagnosis(hadmId, t) in diags ==> t in shown)
  {
    var unique := UniqueTitles(diags, hadmId);
    var shown := Prefix(unique, cap);
    forall t | t in shown ensures TitledDiagnosis(hadmId, t) in diags {
      VisitTitlesExactly(diags, hadmId, t);
    }
    if |shown| < cap {
      forall t | TitledDiagnosis(hadmId, t) in diags ensures t in shown {
        VisitTitlesExactly(diags, hadmId, t);
      }
    }
  }

  /** The same for the drugs of a visit. */
  lemma ShownDrugs(rx: seq<Prescription>, hadmId: nat, cap: nat)
    ensures var shown := Prefix(UniqueDrugs(rx, hadmId), cap);
            && |shown| <= cap && NoDups(shown)
            && (forall d :: d in shown ==> Prescription(hadmId, d) in rx)
            && (|shown| < cap ==> forall d :: Prescription(hadmId, d) in rx ==> d in shown)
  {
    var unique := UniqueDrugs(rx, hadmId);
    var shown := Prefix(unique, cap);
    forall d | d in shown ensures Prescription(hadmId, d) in rx {
      VisitDrugsExactly(rx, hadmId, d);
    }
    if |shown| < cap {
      forall d | Prescription(hadmId, d) in rx ensures d in shown {
        VisitDrugsExactly(rx, hadmId, d);
      }
    }
  }

  /** A cut list keeps the order and distinctness of the items it shows. */
  lemma CapKeeps<T>(items: seq<T>, cap: nat)
    requires NoDups(items)
    ensures NoDups(Prefix(items, cap))
    ensures forall k :: 0 <= k < |Prefix(items, cap)| ==> Prefix(items, cap)[k] == items[k]
  {
  }
}

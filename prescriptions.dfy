/** The prescription summariser of old_pipeline_for_reference/code_pipeline/
    ehr_ollama_summarize.py: a structured answer such as "(PROPOFOL,DOXEPIN HCL)"
    is parsed into drug names, the names are looked up in a small table of
    therapeutic classes, and every row gets a summary, either the language
    model's reply to a prompt or a deterministic fallback sentence. */
module PrescriptionSummary {
  import opened Wrappers
  import opened Text
  import opened Endpoint

  /** DRUG_CLASS_MAP: the therapeutic class of a stripped lower-case drug
      name. Its keys are distinct, so a first-match lookup is the dict lookup. */
  const DrugClassTable: seq<(string, string)> := [
    ("cefepime", "antibiotic"),
    ("vancomycin", "antibiotic"),
    ("meropenem", "antibiotic"),
    ("ceftriaxone", "antibiotic"),
    ("levofloxacin", "antibiotic"),
    ("metoprolol tartrate", "beta-blocker"),
    ("amiodarone", "antiarrhythmic"),
    ("heparin", "anticoagulant"),
    ("simvastatin", "statin"),
    ("lisinopril", "ace inhibitor"),
    ("potassium chloride", "electrolyte"),
    ("furosemide", "loop diuretic"),
    ("doxepin hcl", "antidepressant (TCA)"),
    ("paroxetine", "antidepressant (SSRI)"),
    ("lorazepam", "benzodiazepine"),
    ("propofol", "sedative/anesthetic"),
    ("famotidine", "h2 blocker"),
    ("docusate sodium", "stool softener"),
    ("bisacodyl", "laxative"),
    ("calcium carbonate", "antacid/supplement"),
    ("tiotropium bromide", "bronchodilator (anticholinergic)"),
    ("albuterol-ipratropium", "bronchodilator combination"),
    ("cyanocobalamin", "vitamin (B12)"),
    ("ibuprofen", "nsaid"),
    ("alendronate sodium", "bisphosphonate"),
    ("senna", "laxative"),
    ("maalox/diphenhydramine/lidocaine", "gi cocktail")
  ]

  const NoPrescriptionsText := "No prescriptions found in this record."

  // ---------------------------------------------------------------- normalising and parsing

  /** The lookup key of a drug name: surrounding whitespace removed, lower case. */
  function NormalizeDrugName(name: string): (key: string)
    ensures IsTrimmed(key)
    ensures |key| <= |name|
    ensures forall i :: 0 <= i < |key| ==> !('A' <= key[i] <= 'Z')
  {
    Lower(Strip(name))
  }

  /** Normalising a key again changes nothing. */
  lemma NormalizeIdempotent(name: string)
    ensures NormalizeDrugName(NormalizeDrugName(name)) == NormalizeDrugName(name)
  {
    var key := NormalizeDrugName(name);
    StripTrimmed(key);
    LowerNoUpper(key);
  }

  /** The comprehension [p.strip() for p in parts if p.strip()]. */
  function StripNonBlank(parts: seq<string>): (r: seq<string>)
    ensures |r| <= |parts|
    ensures forall k :: 0 <= k < |r| ==> r[k] != "" && IsTrimmed(r[k])
  {
    if parts == [] then []
    else
      var p := Strip(parts[0]);
      var rest := StripNonBlank(parts[1..]);
      if p == "" then rest else [p] + rest
  }

  /** A part free of character c yields elements free of c. */
  lemma {:induction false} StripNonBlankKeepsOut(parts: seq<string>, c: char)
    requires forall k :: 0 <= k < |parts| ==> c !in parts[k]
    ensures forall k :: 0 <= k < |StripNonBlank(parts)| ==> c !in StripNonBlank(parts)[k]
  {
    if parts != [] {
      TrimKeepsOut(parts[0], IsSpace, c);
      StripNonBlankKeepsOut(parts[1..], c);
    }
  }

  /** The text parse_drug_list splits: whitespace stripped, then any run of
      parentheses at either end. */
  function ListBody(answer: string): string {
    Trim(Strip(answer), IsParen)
  }

  /** parse_drug_list: the comma-separated drug names of a structured answer.
      A missing (non-string) answer gives no drugs. */
  function ParseDrugList(answer: Option<string>): (drugs: seq<string>)
    ensures answer.None? ==> drugs == []
    ensures answer.Some? && ListBody(answer.value) == "" ==> drugs == []
    ensures forall k :: 0 <= k < |drugs| ==> drugs[k] != "" && IsTrimmed(drugs[k]) && ',' !in drugs[k]
  {
    match answer
    case None => []
    case Some(s) =>
      var text := ListBody(s);
      if text == "" then []
      else
        StripNonBlankKeepsOut(Split(text, ','), ',');
        StripNonBlank(Split(text, ','))
  }

  predicate IsSpaceOrComma(c: char) {
    IsSpace(c) || c == ','
  }

  /** Every character of s satisfies p. */
  predicate AllOf(s: string, p: char -> bool) {
    forall i :: 0 <= i < |s| ==> p(s[i])
  }

  lemma AllOfConcat(a: string, b: string, p: char -> bool)
    ensures AllOf(a + b, p) <==> AllOf(a, p) && AllOf(b, p)
  {
    if AllOf(a, p) && AllOf(b, p) {
      forall i | 0 <= i < |a + b| ensures p((a + b)[i]) {
        if i >= |a| { assert (a + b)[i] == b[i - |a|]; }
      }
    }
    if AllOf(a + b, p) {
      forall i | 0 <= i < |a| ensures p(a[i]) {
        assert a[i] == (a + b)[i];
      }
      forall i | 0 <= i < |b| ensures p(b[i]) {
        assert b[i] == (a + b)[|a| + i];
      }
    }
  }

  /** Joined text is made of characters satisfying p, when the separator is,
      exactly when every part is. */
  lemma {:induction false} JoinAllOf(parts: seq<string>, sep: char, p: char -> bool)
    requires p(sep)
    ensures AllOf(Join(parts, [sep]), p) <==> forall k :: 0 <= k < |parts| ==> AllOf(parts[k], p)
    decreases |parts|
  {
    if |parts| > 1 {
      JoinAllOf(parts[1..], sep, p);
      AllOfConcat(parts[0] + [sep], Join(parts[1..], [sep]), p);
      AllOfConcat(parts[0], [sep], p);
      assert forall k :: 1 <= k < |parts| ==> parts[k] == parts[1..][k - 1];
    }
  }

  lemma {:induction false} StripNonBlankEmpty(parts: seq<string>)
    ensures StripNonBlank(parts) == [] <==> forall k :: 0 <= k < |parts| ==> AllSpace(parts[k])
  {
    if parts != [] {
      StripNonBlankEmpty(parts[1..]);
      assert forall k :: 1 <= k < |parts| ==> parts[k] == parts[1..][k - 1];
    }
  }

  /** parse_drug_list finds no drug exactly when the stripped body holds
      nothing but whitespace and commas. */
  lemma ParseDrugListEmptyIff(answer: string)
    ensures ParseDrugList(Some(answer)) == [] <==> AllOf(ListBody(answer), IsSpaceOrComma)
  {
    var text := ListBody(answer);
    if text != "" {
      var parts := Split(text, ',');
      JoinAllOf(parts, ',', IsSpaceOrComma);
      StripNonBlankEmpty(parts);
      forall k | 0 <= k < |parts| ensures AllSpace(parts[k]) <==> AllOf(parts[k], IsSpaceOrComma) {
        assert ',' !in parts[k];
        if AllOf(parts[k], IsSpaceOrComma) {
          forall i | 0 <= i < |parts[k]| ensures IsSpace(parts[k][i]) {
            assert parts[k][i] in parts[k];
          }
        }
      }
    }
  }

  // ---------------------------------------------------------------- round trip

  /** A list of drug names as parse_drug_list produces them, and that no
      surrounding parentheses would eat into. */
  predicate WellFormedList(drugs: seq<string>) {
    && drugs != []
    && (forall k :: 0 <= k < |drugs| ==> drugs[k] != "" && IsTrimmed(drugs[k]) && ',' !in drugs[k])
    && !IsParen(drugs[0][0])
    && !IsParen(drugs[|drugs| - 1][|drugs[|drugs| - 1]| - 1])
  }

  /** The parts of Join(drugs, ", ") when it is split at the commas alone. */
  function SpacedParts(drugs: seq<string>): (r: seq<string>)
    requires drugs != []
    ensures |r| == |drugs| && r[0] == drugs[0]
    ensures forall k :: 1 <= k < |drugs| ==> r[k] == " " + drugs[k]
  {
    [drugs[0]] + seq(|drugs| - 1, k requires 0 <= k < |drugs| - 1 => " " + drugs[k + 1])
  }

  lemma {:induction false} JoinSpaced(drugs: seq<string>)
    requires drugs != []
    ensures Join(drugs, ", ") == Join(SpacedParts(drugs), [','])
    decreases |drugs|
  {
    if |drugs| > 1 {
      var rest := drugs[1..];
      JoinSpaced(rest);
      var sp := SpacedParts(drugs);
      var spRest := SpacedParts(rest);
      assert sp[1..] == [" " + rest[0]] + spRest[1..];
      if |rest| == 1 {
        assert Join(sp, [',']) == drugs[0] + [','] + (" " + rest[0]);
      } else {
        assert Join(sp[1..], [',']) == " " + rest[0] + [','] + Join(spRest[1..], [',']);
        assert Join(spRest, [',']) == rest[0] + [','] + Join(spRest[1..], [',']);
      }
    }
  }

  lemma StripSpaced(d: string)
    requires d != [] && IsTrimmed(d)
    ensures Strip(d) == d && Strip(" " + d) == d
  {
    StripTrimmed(d);
    var s := " " + d;
    assert s[1..] == d;
    assert TrimLeft(s, IsSpace) == TrimLeft(d, IsSpace);
    TrimLeftNoop(d, IsSpace);
    TrimRightNoop(d, IsSpace);
  }

  lemma {:induction false} StripNonBlankSpaced(drugs: seq<string>)
    requires WellFormedList(drugs)
    ensures StripNonBlank(SpacedParts(drugs)) == drugs
  {
    var sp := SpacedParts(drugs);
    forall k | 0 <= k < |drugs| ensures Strip(sp[k]) == drugs[k] {
      StripSpaced(drugs[k]);
      if k > 0 { assert sp[k] == " " + drugs[k]; }
    }
    StripEach(sp, drugs);
  }

  /** Parts that each strip to a non-empty name keep all of them, in order. */
  lemma {:induction false} StripEach(parts: seq<string>, drugs: seq<string>)
    requires |parts| == |drugs|
    requires forall k :: 0 <= k < |drugs| ==> drugs[k] != "" && Strip(parts[k]) == drugs[k]
    ensures StripNonBlank(parts) == drugs
    decreases |parts|
  {
    if parts != [] {
      StripEach(parts[1..], drugs[1..]);
      assert [drugs[0]] + drugs[1..] == drugs;
    }
  }

  /** Drug names joined with ", ", as the prompt and the fallback show them,
      parse back to the same names in the same order. */
  lemma ParseJoinRoundTrip(drugs: seq<string>)
    requires WellFormedList(drugs)
    ensures ParseDrugList(Some(Join(drugs, ", "))) == drugs
  {
    var s := Join(drugs, ", ");
    JoinEnds(drugs, ", ");
    TrimNoop(s, IsSpace);
    TrimNoop(s, IsParen);
    assert ListBody(s) == s;
    JoinSpaced(drugs);
    var sp := SpacedParts(drugs);
    forall k | 0 <= k < |sp| ensures ',' !in sp[k] {
      if k > 0 { assert sp[k] == " " + drugs[k]; }
    }
    SplitJoin(sp, ',');
    StripNonBlankSpaced(drugs);
  }

  /** A body that is a single name parses to that name alone. */
  lemma ParseSingleBody(s: string, d: string)
    requires ListBody(s) == d && d != "" && IsTrimmed(d) && ',' !in d
    ensures ParseDrugList(Some(s)) == [d]
  {
    SplitNoSep(d, ',');
    StripTrimmed(d);
  }

  /** A single name in one pair of parentheses parses back to that name. */
  lemma ParseSingleEnclosed(d: string)
    requires d != "" && IsTrimmed(d) && ',' !in d && !IsParen(d[0]) && !IsParen(d[|d| - 1])
    ensures ParseDrugList(Some("(" + d + ")")) == [d]
  {
    var s := "(" + d + ")";
    assert s[0] == '(' && s[|s| - 1] == ')';
    TrimNoop(s, IsSpace);
    TrimAround("(", d, ")", IsParen);
    ParseSingleBody(s, d);
  }

  /** A name that itself ends in a closing parenthesis, such as
      "TYLENOL (ORAL)", loses it: the body is stripped of every parenthesis
      at its ends, not of one enclosing pair, so "(TYLENOL (ORAL))" parses
      to "TYLENOL (ORAL". */
  lemma ParseEatsClosingParen(e: string)
    requires e != "" && IsTrimmed(e) && ',' !in e && !IsParen(e[0]) && !IsParen(e[|e| - 1])
    ensures ParseDrugList(Some("(" + (e + ")") + ")")) == [e]
  {
    var s := "(" + (e + ")") + ")";
    assert s == "(" + e + "))";
    TrimNoop(s, IsSpace);
    TrimAround("(", e, "))", IsParen);
    ParseSingleBody(s, e);
  }

  // ---------------------------------------------------------------- classes

  /** dict.get on a table of (key, value) pairs. */
  function Lookup(table: seq<(string, string)>, key: string): Option<string> {
    if table == [] then None
    else if table[0].0 == key then Some(table[0].1)
    else Lookup(table[1..], key)
  }

  /** Lookup finds a value exactly for a key the table holds, and that value
      is paired with the key. */
  lemma {:induction false} LookupFinds(table: seq<(string, string)>, key: string)
    ensures Lookup(table, key).Some? ==> exists k :: 0 <= k < |table| && table[k] == (key, Lookup(table, key).value)
    ensures Lookup(table, key).None? ==> forall k :: 0 <= k < |table| ==> table[k].0 != key
  {
    if table != [] && table[0].0 != key {
      LookupFinds(table[1..], key);
      assert forall k :: 1 <= k < |table| ==> table[k] == table[1..][k - 1];
      if Lookup(table, key).Some? {
        var k :| 0 <= k < |table| - 1 && table[1..][k] == (key, Lookup(table, key).value);
        assert table[k + 1] == (key, Lookup(table, key).value);
      }
    }
  }

  /** The class DRUG_CLASS_MAP.get gives a drug, if any. */
  function ClassOf(drug: string): Option<string> {
    Lookup(DrugClassTable, NormalizeDrugName(drug))
  }

  /** Whether a lookup result counts for detect_classes: present and non-empty. */
  predicate Truthy(c: Option<string>) {
    c.Some? && c.value != ""
  }

  /** The classes a lookup gives a drug list, as detect_classes collects
      them: every truthy class once, in the order a drug first brings it. */
  function ClassesBy(classOf: string -> Option<string>, drugs: seq<string>): seq<string>
    decreases |drugs|
  {
    if drugs == [] then []
    else
      var prev := ClassesBy(classOf, drugs[..|drugs| - 1]);
      var c := classOf(drugs[|drugs| - 1]);
      if Truthy(c) && c.value !in prev then prev + [c.value] else prev
  }

  /** detect_classes(drugs): the classes DRUG_CLASS_MAP gives the drugs. */
  function ClassesOf(drugs: seq<string>): seq<string> {
    ClassesBy(ClassOf, drugs)
  }

  /** One more drug adds its class, when truthy and not yet listed. */
  lemma ClassesByStep(classOf: string -> Option<string>, drugs: seq<string>, i: nat)
    requires i < |drugs|
    ensures var prev := ClassesBy(classOf, drugs[..i]);
            var c := classOf(drugs[i]);
            ClassesBy(classOf, drugs[..i + 1]) == if Truthy(c) && c.value !in prev then prev + [c.value] else prev
  {
    assert drugs[..i + 1][..i] == drugs[..i];
  }

  /** detect_classes, proved against ClassesOf. */
  method DetectClasses(drugs: seq<string>) returns (classes: seq<string>)
    ensures classes == ClassesOf(drugs)
  {
    classes := [];
    var seen: set<string> := {};
    for i := 0 to |drugs|
      invariant classes == ClassesBy(ClassOf, drugs[..i])
      invariant forall c :: c in seen <==> c in classes
    {
      var cls := ClassOf(drugs[i]);
      ClassesByStep(ClassOf, drugs, i);
      if cls.Some? && cls.value != "" && cls.value !in seen {
        classes := classes + [cls.value];
        seen := seen + {cls.value};
      }
    }
    assert drugs[..|drugs|] == drugs;
  }

  /** No class is listed twice, and there are no more classes than drugs. */
  lemma {:induction false} ClassesDistinct(classOf: string -> Option<string>, drugs: seq<string>)
    ensures NoDups(ClassesBy(classOf, drugs)) && |ClassesBy(classOf, drugs)| <= |drugs|
    decreases |drugs|
  {
    if drugs != [] {
      var prev := ClassesBy(classOf, drugs[..|drugs| - 1]);
      ClassesDistinct(classOf, drugs[..|drugs| - 1]);
      var c := classOf(drugs[|drugs| - 1]);
      if Truthy(c) && c.value !in prev {
        assert forall k :: 0 <= k < |prev| ==> (prev + [c.value])[k] == prev[k] != c.value;
      }
    }
  }

  /** Every listed class is the truthy class of one of the drugs. */
  lemma {:induction false} ClassesSound(classOf: string -> Option<string>, drugs: seq<string>, k: nat)
    requires k < |ClassesBy(classOf, drugs)|
    ensures ClassesBy(classOf, drugs)[k] != ""
    ensures exists j :: 0 <= j < |drugs| && classOf(drugs[j]) == Some(ClassesBy(classOf, drugs)[k])
    decreases |drugs|
  {
    var init := drugs[..|drugs| - 1];
    var prev := ClassesBy(classOf, init);
    if k < |prev| {
      ClassesSound(classOf, init, k);
      var j :| 0 <= j < |init| && classOf(init[j]) == Some(prev[k]);
      assert init[j] == drugs[j];
    } else {
      var c := classOf(drugs[|drugs| - 1]);
      assert Truthy(c) && ClassesBy(classOf, drugs) == prev + [c.value];
    }
  }

  /** Every drug with a truthy class has that class listed. */
  lemma {:induction false} ClassesComplete(classOf: string -> Option<string>, drugs: seq<string>, j: nat)
    requires j < |drugs| && Truthy(classOf(drugs[j]))
    ensures classOf(drugs[j]).value in ClassesBy(classOf, drugs)
    decreases |drugs|
  {
    var init := drugs[..|drugs| - 1];
    if j < |init| {
      assert init[j] == drugs[j];
      ClassesComplete(classOf, init, j);
    }
  }

  /** The truthy classes of the drugs, in drug order, repeats included. */
  function TruthyClasses(classOf: string -> Option<string>, drugs: seq<string>): (r: seq<string>)
    ensures |r| <= |drugs|
    ensures forall c :: c in r <==> exists j :: 0 <= j < |drugs| && Truthy(classOf(drugs[j])) && classOf(drugs[j]).value == c
    decreases |drugs|
  {
    if drugs == [] then []
    else
      var init := drugs[..|drugs| - 1];
      var prev := TruthyClasses(classOf, init);
      var c := classOf(drugs[|drugs| - 1]);
      assert forall j :: 0 <= j < |init| ==> init[j] == drugs[j];
      if Truthy(c) then prev + [c.value] else prev
  }

  /** detect_classes is the truthy classes with repeats dropped, keeping the
      first occurrence of each: the same list as Series.unique gives. */
  lemma {:induction false} ClassesAreUnique(classOf: string -> Option<string>, drugs: seq<string>)
    ensures ClassesBy(classOf, drugs) == Distinct(TruthyClasses(classOf, drugs))
    decreases |drugs|
  {
    if drugs != [] {
      var init := drugs[..|drugs| - 1];
      ClassesAreUnique(classOf, init);
      var t := TruthyClasses(classOf, init);
      var c := classOf(drugs[|drugs| - 1]);
      if Truthy(c) {
        assert (t + [c.value])[..|t + [c.value]| - 1] == t;
      }
    }
  }

  /** detect_classes lists the classes in the order the drugs first bring them:
      a class listed earlier first occurs earlier among the drugs' truthy classes. */
  lemma ClassesFirstSeenOrder(classOf: string -> Option<string>, drugs: seq<string>, a: nat, b: nat)
    requires a < b < |ClassesBy(classOf, drugs)|
    ensures var classes := ClassesBy(classOf, drugs);
            var t := TruthyClasses(classOf, drugs);
            classes[a] in t && classes[b] in t && FirstIndex(t, classes[a]) < FirstIndex(t, classes[b])
  {
    ClassesAreUnique(classOf, drugs);
    DistinctFirstSeenOrder(TruthyClasses(classOf, drugs), a, b);
  }

  /** Every class in the table is a non-empty string, so no class is ever dropped as falsy. */
  lemma ClassNamesNonEmpty(drug: string)
    ensures ClassOf(drug).Some? ==> ClassOf(drug).value != ""
  {
    assert forall k :: 0 <= k < |DrugClassTable| ==> DrugClassTable[k].1 != "";
    LookupAvoids(DrugClassTable, NormalizeDrugName(drug), "");
  }

  /** A value no entry of the table holds is never found. */
  lemma {:induction false} LookupAvoids(table: seq<(string, string)>, key: string, v: string)
    requires forall k :: 0 <= k < |table| ==> table[k].1 != v
    ensures Lookup(table, key).Some? ==> Lookup(table, key).value != v
  {
    if table != [] && table[0].0 != key {
      assert forall k :: 0 <= k < |table| - 1 ==> table[1..][k] == table[k + 1];
      LookupAvoids(table[1..], key, v);
    }
  }

  // ---------------------------------------------------------------- prompt and fallback

  /** The medication field of the prompt. */
  function MedicationField(drugs: seq<string>): string {
    if drugs == [] then "None" else Join(drugs, ", ")
  }

  /** The class field of the prompt. */
  function ClassField(classes: seq<string>): string {
    if classes == [] then "unknown" else Join(classes, ", ")
  }

  /** prompt_from_row: the fixed instruction template with the question, the
      medication field and the class field filled in. */
  function PromptFromRow(nlQuestion: string, drugs: seq<string>, classes: seq<string>): string {
    PromptIntro + nlQuestion
    + MedicationsLabel + MedicationField(drugs)
    + ClassesLabel + ClassField(classes)
    + PromptTask
  }

  // The fixed parts of the prompt.
  const PromptIntro := "You are a biomedical summarizer for an EHR system.\nInput:\n- NL question: "
  const MedicationsLabel := "\n- Prescribed medications: "
  const ClassesLabel := "\n- Detected therapeutic classes: "

  const PromptTask :=
    "\n\nTask:\nWrite a concise, clinically neutral summary (1–2 sentences) of the prescription profile.\n"
    + "Requirements:\n- Prefer categories (e.g., 'antibiotics', 'beta-blocker') over listing every drug.\n"
    + "- Do NOT infer diagnoses or outcomes.\n"
    + "- If uncertain about a drug, speak generally (e.g., 'multiple cardiovascular and antibiotic agents').\n"
    + "- If no drugs are present, say 'No prescriptions found in this record.'\n"
    + "- Keep it under 40 words.\nOutput only the summary."

  /** The medication field of a parsed, non-empty drug list names exactly
      those drugs, in order; an empty list shows "None". */
  lemma MedicationFieldLists(drugs: seq<string>)
    requires drugs == [] || WellFormedList(drugs)
    ensures drugs == [] ==> MedicationField(drugs) == "None"
    ensures drugs != [] ==> ParseDrugList(Some(MedicationField(drugs))) == drugs
  {
    if drugs != [] { ParseJoinRoundTrip(drugs); }
  }

  /** An answer listing one drug literally named "None" gives the same
      medication field, and so the same prompt, as an answer with no drugs. */
  lemma MedicationFieldAmbiguous(nlQuestion: string, classes: seq<string>)
    ensures ParseDrugList(Some("(None)")) == ["None"]
    ensures PromptFromRow(nlQuestion, [], classes) == PromptFromRow(nlQuestion, ["None"], classes)
  {
    assert "(None)" == "(" + "None" + ")";
    ParseSingleEnclosed("None");
  }

  /** No class of the table is named "unknown". */
  lemma ClassNotUnknown(drug: string)
    ensures ClassOf(drug).Some? ==> ClassOf(drug).value != "unknown"
  {
    assert forall k :: 0 <= k < |DrugClassTable| ==> DrugClassTable[k].1 != "unknown";
    LookupAvoids(DrugClassTable, NormalizeDrugName(drug), "unknown");
  }

  /** Two or more items joined with ", " hold a comma. */
  lemma JoinedHasComma(items: seq<string>)
    requires |items| >= 2
    ensures ',' in Join(items, ", ")
  {
    var init := items[..|items| - 1];
    assert items == init + [items[|items| - 1]];
    JoinSnoc(init, items[|items| - 1], ", ");
    assert Join(items, ", ")[|Join(init, ", ")|] == ',';
  }

  /** A class field over detected classes whose first is not "unknown" is not "unknown". */
  lemma FilledClassField(classes: seq<string>)
    requires classes != [] && classes[0] != "unknown"
    ensures ClassField(classes) != "unknown"
  {
    if |classes| >= 2 {
      JoinedHasComma(classes);
      assert ',' !in "unknown";
    }
  }

  /** Unlike the medication field, the class field is unambiguous: it shows
      "unknown" exactly when no class was detected. */
  lemma ClassFieldUnknownIff(drugs: seq<string>)
    ensures ClassField(ClassesOf(drugs)) == "unknown" <==> ClassesOf(drugs) == []
  {
    var classes := ClassesOf(drugs);
    if classes != [] {
      ClassesSound(ClassOf, drugs, 0);
      var j :| 0 <= j < |drugs| && ClassOf(drugs[j]) == Some(classes[0]);
      ClassNotUnknown(drugs[j]);
      FilledClassField(classes);
    }
  }

  /** fallback_summary: the sentence used when the model gives no answer. */
  function FallbackSummary(drugs: seq<string>, classes: seq<string>): string {
    if drugs == [] then NoPrescriptionsText
    else if classes != [] then "Patient received medications spanning: " + Join(classes, ", ") + "."
    else
      var shown := Join(Prefix(drugs, 5), ", ");
      var more := if |drugs| <= 5 then "" else " (and others)";
      "Patient received: " + shown + more + "."
  }

  /** Every fallback is one non-empty sentence ending in a full stop. */
  lemma FallbackIsSentence(drugs: seq<string>, classes: seq<string>)
    ensures FallbackSummary(drugs, classes) != ""
    ensures FallbackSummary(drugs, classes)[|FallbackSummary(drugs, classes)| - 1] == '.'
  {
  }

  /** The no-prescriptions sentence is produced for, and only for, an empty drug list. */
  lemma FallbackNoPrescriptionsIff(drugs: seq<string>, classes: seq<string>)
    ensures FallbackSummary(drugs, classes) == NoPrescriptionsText <==> drugs == []
  {
    if drugs != [] {
      var s := FallbackSummary(drugs, classes);
      assert s[0] == 'P' != NoPrescriptionsText[0];
    }
  }

  /** With a known class, the fallback names the detected classes, each once
      and each the class of one of the drugs, and no drug. */
  lemma FallbackSpansClasses(drugs: seq<string>)
    requires drugs != [] && ClassesOf(drugs) != []
    ensures var classes := ClassesOf(drugs);
            && FallbackSummary(drugs, classes) == "Patient received medications spanning: " + Join(classes, ", ") + "."
            && NoDups(classes)
            && forall k :: 0 <= k < |classes| ==> exists j :: 0 <= j < |drugs| && ClassOf(drugs[j]) == Some(classes[k])
  {
    var classes := ClassesOf(drugs);
    ClassesDistinct(ClassOf, drugs);
    forall k | 0 <= k < |classes|
      ensures exists j :: 0 <= j < |drugs| && ClassOf(drugs[j]) == Some(classes[k])
    {
      ClassesSound(ClassOf, drugs, k);
    }
  }

  /** With no known class, the fallback names the first five drugs at most,
      in order, and says "(and others)" exactly when more exist. */
  lemma FallbackListsFirstFive(drugs: seq<string>)
    requires drugs != []
    ensures var shown := Prefix(drugs, 5);
            && |shown| <= 5 && (|drugs| <= 5 ==> shown == drugs)
            && (forall k :: 0 <= k < |shown| ==> shown[k] == drugs[k])
            && FallbackSummary(drugs, []) == "Patient received: " + Join(shown, ", ")
                 + (if |drugs| > 5 then " (and others)" else "") + "."
  {
  }

  /** The middle of a three-part text is recovered by slicing. */
  lemma MiddleSlice(a: string, b: string, c: string)
    ensures (a + b + c)[|a|..|a| + |b|] == b
  {
  }

  /** The drug names the class-less fallback shows parse back from it, when
      they are names parse_drug_list could have produced. */
  lemma FallbackNamesParseBack(drugs: seq<string>)
    requires WellFormedList(Prefix(drugs, 5))
    ensures var shown := Prefix(drugs, 5);
            var f := FallbackSummary(drugs, []);
            var start := |"Patient received: "|;
            start + |Join(shown, ", ")| <= |f|
            && ParseDrugList(Some(f[start..start + |Join(shown, ", ")|])) == shown
  {
    var shown := Prefix(drugs, 5);
    var body := Join(shown, ", ");
    var more := if |drugs| <= 5 then "" else " (and others)";
    var f := FallbackSummary(drugs, []);
    assert f == "Patient received: " + body + (more + ".");
    MiddleSlice("Patient received: ", body, more + ".");
    ParseJoinRoundTrip(shown);
  }

  // ---------------------------------------------------------------- the summaries column

  /** One input row; NL_Question already converted with astype(str), and
      Answer_Structured None when the cell is not a string. */
  datatype QueryRow = QueryRow(nlQuestion: string, sqlQuery: string, answerStructured: Option<string>)

  /** One output row: the input with the three added columns. */
  datatype SummaryRow = SummaryRow(row: QueryRow, drugList: string, drugClasses: string, summary: string)

  /** df.head(limit) when --limit is given: the first `limit` rows, or, for a
      negative limit, all but the last -limit rows. */
  function Head(rows: seq<QueryRow>, limit: Option<int>): (r: seq<QueryRow>)
    ensures |r| <= |rows| && r == rows[..|r|]
    ensures limit.None? ==> r == rows
    ensures limit.Some? && 0 <= limit.value ==> |r| == if limit.value < |rows| then limit.value else |rows|
    ensures limit.Some? && limit.value < 0 ==> |r| == if |rows| + limit.value < 0 then 0 else |rows| + limit.value
  {
    match limit
    case None => rows
    case Some(n) =>
      if 0 <= n then rows[..if n < |rows| then n else |rows|]
      else rows[..if |rows| + n < 0 then 0 else |rows| + n]
  }

  function RowDrugs(row: QueryRow): seq<string> {
    ParseDrugList(row.answerStructured)
  }

  function RowClasses(row: QueryRow): seq<string> {
    ClassesOf(RowDrugs(row))
  }

  function RowPrompt(row: QueryRow): string {
    PromptFromRow(row.nlQuestion, RowDrugs(row), RowClasses(row))
  }

  function RowFallback(row: QueryRow): string {
    FallbackSummary(RowDrugs(row), RowClasses(row))
  }

  function SlotValue(rows: seq<QueryRow>, i: nat, endpointUp: bool, reply: (nat, string) -> Option<string>): string
    requires i < |rows|
  {
    Slot(endpointUp, reply, i, RowPrompt(rows[i]), RowFallback(rows[i]))
  }

  /** The completed counts at which a progress line is printed. */
  predicate IsProgressMark(k: nat, total: nat) {
    1 <= k <= total && (k % 10 == 0 || k == total)
  }

  /** The progress lines printed once `done` of `total` rows are complete. */
  function Marks(done: nat, total: nat): seq<nat> {
    if done == 0 then []
    else Marks(done - 1, total) + (if IsProgressMark(done, total) then [done] else [])
  }

  /** The progress lines up to `done` are exactly the marks up to `done`, each
      once and in increasing order. */
  lemma {:induction false} MarksExactly(done: nat, total: nat)
    ensures forall k: nat :: k in Marks(done, total) <==> IsProgressMark(k, total) && k <= done
    ensures forall a, b :: 0 <= a < b < |Marks(done, total)| ==> Marks(done, total)[a] < Marks(done, total)[b]
    ensures forall a :: 0 <= a < |Marks(done, total)| ==> Marks(done, total)[a] <= done
  {
    if done > 0 {
      MarksExactly(done - 1, total);
    }
  }

  /** With every row complete, the counts 10, 20, ... and the total are
      reported, once each, in increasing order, the last line being the total. */
  lemma ProgressMarksExactly(total: nat)
    ensures forall k: nat :: k in Marks(total, total) <==> 1 <= k <= total && (k % 10 == 0 || k == total)
    ensures forall a, b :: 0 <= a < b < |Marks(total, total)| ==> Marks(total, total)[a] < Marks(total, total)[b]
    ensures total > 0 ==> Marks(total, total) != [] && Marks(total, total)[|Marks(total, total)| - 1] == total
  {
    MarksExactly(total, total);
  }

  /** One task of the second loop of main: the endpoint's stripped reply to
      the prompt, or the fallback when there is no endpoint or the call
      raised. */
  method SummarizeOne(endpointUp: bool, reply: (nat, string) -> Option<string>, i: nat, prompt: string,
                      drugs: seq<string>, classes: seq<string>) returns (summary: string)
    ensures summary == Slot(endpointUp, reply, i, prompt, FallbackSummary(drugs, classes))
    ensures !endpointUp ==> summary == FallbackSummary(drugs, classes)
  {
    var answer: Option<string> := None;
    if endpointUp {
      answer := reply(i, prompt);
    }
    if answer.Some? {
      summary := Strip(answer.value);
    } else {
      summary := FallbackSummary(drugs, classes);
    }
  }

  /** The progress line after `completed` rows: printed at every tenth
      row and at the last. */
  method ReportProgress(progress: seq<nat>, completed: nat, total: nat) returns (next: seq<nat>)
    requires 1 <= completed <= total && progress == Marks(completed - 1, total)
    ensures next == Marks(completed, total)
  {
    next := progress;
    if completed % 10 == 0 || completed == total {
      next := next + [completed];
    }
  }

  /** The second loop of main: one pre-sized slot per row, and a progress
      line at every tenth completed row and at the last. Rows complete here
      in index order; the thread pool may complete them in any order, which
      changes neither the slots nor the set of progress counts. */
  method FillSlots(drugLists: seq<seq<string>>, classes: seq<seq<string>>, prompts: seq<string>,
                   endpointUp: bool, reply: (nat, string) -> Option<string>)
    returns (summaries: seq<string>, progress: seq<nat>)
    requires |classes| == |drugLists| && |prompts| == |drugLists|
    ensures |summaries| == |drugLists|
    ensures forall i :: 0 <= i < |drugLists| ==>
              summaries[i] == Slot(endpointUp, reply, i, prompts[i], FallbackSummary(drugLists[i], classes[i]))
    ensures progress == Marks(|drugLists|, |drugLists|)
  {
    var n := |drugLists|;
    var slots: seq<string> := seq(n, _ => "");
    progress := [];
    var completed := 0;
    while completed < n
      invariant 0 <= completed <= n && |slots| == n
      invariant forall j :: 0 <= j < completed ==>
                  slots[j] == Slot(endpointUp, reply, j, prompts[j], FallbackSummary(drugLists[j], classes[j]))
      invariant progress == Marks(completed, n)
    {
      var i := completed;
      var s := SummarizeOne(endpointUp, reply, i, prompts[i], drugLists[i], classes[i]);
      slots := slots[i := s];
      completed := completed + 1;
      progress := ReportProgress(progress, completed, n);
    }
    summaries := slots;
  }

  /** main after reading the CSV: apply --limit, parse and classify every row, build
      the prompts, fill the summary slots, and add the drug_list,
      drug_classes and summary columns. */
  method SummarizeRows(rows: seq<QueryRow>, limit: Option<int>, endpointUp: bool, reply: (nat, string) -> Option<string>)
    returns (out: seq<SummaryRow>, progress: seq<nat>)
    ensures |out| == |Head(rows, limit)|
    ensures forall i :: 0 <= i < |out| ==>
              && out[i].row == rows[i]
              && out[i].drugList == Join(RowDrugs(rows[i]), "; ")
              && out[i].drugClasses == Join(RowClasses(rows[i]), ", ")
              && out[i].summary == SlotValue(rows, i, endpointUp, reply)
    ensures progress == Marks(|out|, |out|)
  {
    var df := Head(rows, limit);
    // The two `apply` columns: parse_drug_list, then detect_classes.
    var drugLists := seq(|df|, i requires 0 <= i < |df| => ParseDrugList(df[i].answerStructured));
    var classes := seq(|df|, i requires 0 <= i < |df| => ClassesOf(drugLists[i]));
    var prompts := seq(|df|, i requires 0 <= i < |df| => PromptFromRow(df[i].nlQuestion, drugLists[i], classes[i]));
    var summaries;
    summaries, progress := FillSlots(drugLists, classes, prompts, endpointUp, reply);
    out := seq(|df|, i requires 0 <= i < |df| =>
      SummaryRow(df[i], Join(drugLists[i], "; "), Join(classes[i], ", "), summaries[i]));
    SlotsOfPrefix(rows, df, endpointUp, reply);
  }

  /** A slot depends only on its own row and index, so the slots of the
      first rows are the same whatever follows them. */
  lemma SlotsOfPrefix(rows: seq<QueryRow>, df: seq<QueryRow>, endpointUp: bool, reply: (nat, string) -> Option<string>)
    requires |df| <= |rows| && df == rows[..|df|]
    ensures forall i :: 0 <= i < |df| ==> SlotValue(df, i, endpointUp, reply) == SlotValue(rows, i, endpointUp, reply)
  {
    forall i | 0 <= i < |df| ensures SlotValue(df, i, endpointUp, reply) == SlotValue(rows, i, endpointUp, reply) {
      assert df[i] == rows[i];
    }
  }

  /** Without an endpoint every summary is the deterministic fallback. */
  lemma NoEndpointAllFallback(rows: seq<QueryRow>, reply: (nat, string) -> Option<string>)
    ensures forall i :: 0 <= i < |rows| ==> SlotValue(rows, i, false, reply) == RowFallback(rows[i])
  {
  }

  /** The drug_classes column is empty exactly when no class was detected. */
  lemma DrugClassesColumnEmptyIff(drugs: seq<string>)
    ensures Join(ClassesOf(drugs), ", ") == "" <==> ClassesOf(drugs) == []
  {
    var cs := ClassesOf(drugs);
    if cs != [] {
      forall k | 0 <= k < |cs| ensures cs[k] != "" {
        ClassesSound(ClassOf, drugs, k);
      }
      JoinEnds(cs, ", ");
    }
  }
}

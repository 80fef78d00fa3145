/** extract_admission_id, the same function in pipelineScalingCode/
    mimicivLifelines.py and old_pipeline_for_reference/code_pipeline/
    aggregate_patient_summaries.py: the first match of the case-insensitive
    pattern (HADM_ID|ADMISSION ID)\s*=?\s*(\d+), read as a number. The regular
    expression is written here as a scanner and related to a declarative
    statement of what a match is. The PATIENT_ID column both scripts derive
    from it is modelled at the end. */
module AdmissionId {
  import opened Wrappers
  import opened Text

  const HadmLabel := "HADM_ID"
  const AdmissionLabel := "ADMISSION ID"

  /** re.IGNORECASE equality of one character (ASCII letters). */
  predicate SameIgnoringCase(a: char, b: char) {
    LowerChar(a) == LowerChar(b)
  }

  /** `s` starts with `word`, ignoring case. */
  predicate StartsIgnoringCase(s: string, word: string) {
    |word| <= |s| && (word == [] || (SameIgnoringCase(s[0], word[0]) && StartsIgnoringCase(s[1..], word[1..])))
  }

  /** `word` occurs at position i of `text`, ignoring case. */
  predicate LabelAt(text: string, i: nat, word: string) {
    i <= |text| && StartsIgnoringCase(text[i..], word)
  }

  /** \s*: the end of the run of whitespace that starts at i. */
  function SkipSpaces(text: string, i: nat): (j: nat)
    requires i <= |text|
    ensures i <= j <= |text|
    ensures forall k :: i <= k < j ==> IsSpace(text[k])
    ensures j == |text| || !IsSpace(text[j])
    decreases |text| - i
  {
    if i < |text| && IsSpace(text[i]) then SkipSpaces(text, i + 1) else i
  }

  /** \d+ taken greedily: the end of the run of digits that starts at i. */
  function SkipDigits(text: string, i: nat): (j: nat)
    requires i <= |text|
    ensures i <= j <= |text|
    ensures forall k :: i <= k < j ==> IsDigit(text[k])
    ensures j == |text| || !IsDigit(text[j])
    decreases |text| - i
  {
    if i < |text| && IsDigit(text[i]) then SkipDigits(text, i + 1) else i
  }

  /** The position just after a label that starts at i, if one does. */
  function LabelEnd(text: string, i: nat): Option<nat> {
    if LabelAt(text, i, HadmLabel) then Some(i + |HadmLabel|)
    else if LabelAt(text, i, AdmissionLabel) then Some(i + |AdmissionLabel|)
    else None
  }

  /** \s*=?\s* read greedily from e: where the digits have to begin. */
  function GapEnd(text: string, e: nat): nat
    requires e <= |text|
  {
    var a := SkipSpaces(text, e);
    var b := if a < |text| && text[a] == '=' then a + 1 else a;
    SkipSpaces(text, b)
  }

  /** (\d+) read from c: the number its digits spell, if there is a digit. */
  function DigitsFrom(text: string, c: nat): Option<nat>
    requires c <= |text|
  {
    var d := SkipDigits(text, c);
    if c < d then
      assert forall k :: 0 <= k < d - c ==> text[c..d][k] == text[c + k];
      Some(DigitsValue(text[c..d]))
    else None
  }

  /** The number the pattern reads when it is tried at position i. */
  function MatchAt(text: string, i: nat): Option<nat> {
    match LabelEnd(text, i)
    case None => None
    case Some(e) => DigitsFrom(text, GapEnd(text, e))
  }

  /** re.search: the match that starts leftmost, at or after position i. */
  function Search(text: string, i: nat): (r: Option<nat>)
    requires i <= |text|
    ensures r.Some? ==> exists p :: i <= p < |text| && MatchAt(text, p) == r &&
                                    forall q :: i <= q < p ==> MatchAt(text, q).None?
    ensures r.None? ==> forall q :: i <= q < |text| ==> MatchAt(text, q).None?
    decreases |text| - i
  {
    if i == |text| then None
    else if MatchAt(text, i).Some? then MatchAt(text, i)
    else Search(text, i + 1)
  }

  /** extract_admission_id: None for a value that is not a string, otherwise
      the digit group of the leftmost match as a number, or None. */
  function ExtractAdmissionId(text: Option<string>): (r: Option<nat>)
    ensures text.None? ==> r.None?
    ensures r.Some? ==> text.Some? && exists p :: 0 <= p < |text.value| && MatchAt(text.value, p) == r
  {
    if text.None? then None else Search(text.value, 0)
  }

  // ----- What a match of the pattern is, stated declaratively -----

  /** What may stand between the label and the digits, text[e..c]: \s*=?\s*. */
  predicate Gap(text: string, e: nat, c: nat)
    requires c <= |text|
  {
    (forall k :: e <= k < c ==> IsSpace(text[k])) ||
    exists m :: e <= m < c && text[m] == '=' &&
                (forall k :: e <= k < m ==> IsSpace(text[k])) && (forall k :: m < k < c ==> IsSpace(text[k]))
  }

  /** A label, either one in any case, occupies text[i..e]. */
  predicate LabelSpan(text: string, i: nat, e: nat) {
    (LabelAt(text, i, HadmLabel) && e == i + |HadmLabel|) ||
    (LabelAt(text, i, AdmissionLabel) && e == i + |AdmissionLabel|)
  }

  /** text[c..d] is a run of digits that cannot be extended to the right. */
  predicate DigitGroup(text: string, c: nat, d: nat) {
    c < d <= |text| && AllDigits(text[c..d]) && (d == |text| || !IsDigit(text[d]))
  }

  /** The pattern matches at position i: the label ends at e, and the digit
      group, taken greedily, is text[c..d]. */
  predicate IsMatch(text: string, i: nat, e: nat, c: nat, d: nat) {
    LabelSpan(text, i, e) && e <= c && DigitGroup(text, c, d) && Gap(text, e, c)
  }

  lemma {:induction false} SkipSpacesTo(text: string, i: nat, j: nat)
    requires i <= j <= |text|
    requires forall k :: i <= k < j ==> IsSpace(text[k])
    requires j == |text| || !IsSpace(text[j])
    ensures SkipSpaces(text, i) == j
    decreases j - i
  {
    if i < j {
      SkipSpacesTo(text, i + 1, j);
    }
  }

  lemma {:induction false} SkipDigitsTo(text: string, i: nat, j: nat)
    requires i <= j <= |text|
    requires forall k :: i <= k < j ==> IsDigit(text[k])
    requires j == |text| || !IsDigit(text[j])
    ensures SkipDigits(text, i) == j
    decreases j - i
  {
    if i < j {
      SkipDigitsTo(text, i + 1, j);
    }
  }

  lemma DigitsSlice(text: string, i: nat, j: nat)
    requires i <= j <= |text|
    ensures AllDigits(text[i..j]) <==> forall k :: i <= k < j ==> IsDigit(text[k])
  {
    assert forall k :: i <= k < j ==> text[i..j][k - i] == text[k];
  }

  lemma LabelEndSpan(text: string, i: nat, e: nat)
    ensures LabelEnd(text, i) == Some(e) <==> LabelSpan(text, i, e)
  {
    if LabelAt(text, i, HadmLabel) {
      assert SameIgnoringCase(text[i..][0], HadmLabel[0]);
    }
  }

  lemma GapEndSound(text: string, e: nat)
    requires e <= |text|
    ensures Gap(text, e, GapEnd(text, e))
  {
    var a := SkipSpaces(text, e);
    if !(a < |text| && text[a] == '=') {
      SkipSpacesTo(text, a, a);
    }
  }

  lemma GapEndComplete(text: string, e: nat, c: nat)
    requires e <= c < |text| && Gap(text, e, c) && IsDigit(text[c])
    ensures GapEnd(text, e) == c
  {
    if forall k :: e <= k < c ==> IsSpace(text[k]) {
      SkipSpacesTo(text, e, c);
      SkipSpacesTo(text, c, c);
    } else {
      var m :| e <= m < c && text[m] == '=' &&
               (forall k :: e <= k < m ==> IsSpace(text[k])) && (forall k :: m < k < c ==> IsSpace(text[k]));
      GapEndAtEquals(text, e, m, c);
    }
  }

  lemma GapEndAtEquals(text: string, e: nat, a: nat, c: nat)
    requires e <= a < c < |text| && text[a] == '=' && IsDigit(text[c])
    requires forall k :: e <= k < a ==> IsSpace(text[k])
    requires forall k :: a < k < c ==> IsSpace(text[k])
    ensures GapEnd(text, e) == c
  {
    SkipSpacesTo(text, e, a);
    SkipSpacesTo(text, a + 1, c);
  }

  lemma DigitsFromSound(text: string, c: nat)
    requires c <= |text| && DigitsFrom(text, c).Some?
    ensures DigitGroup(text, c, SkipDigits(text, c))
    ensures DigitsFrom(text, c) == Some(DigitsValue(text[c..SkipDigits(text, c)]))
  {
    DigitsSlice(text, c, SkipDigits(text, c));
  }

  lemma DigitsFromComplete(text: string, c: nat, d: nat)
    requires DigitGroup(text, c, d)
    ensures DigitsFrom(text, c) == Some(DigitsValue(text[c..d]))
  {
    DigitsSlice(text, c, d);
    SkipDigitsTo(text, c, d);
  }

  /** Whatever the scanner reads at i is the digit group of a match at i. */
  lemma MatchAtSound(text: string, i: nat)
    requires MatchAt(text, i).Some?
    ensures exists e: nat, c: nat, d: nat :: IsMatch(text, i, e, c, d) && MatchAt(text, i) == Some(DigitsValue(text[c..d]))
  {
    var e := LabelEnd(text, i).value;
    LabelEndSpan(text, i, e);
    var c := GapEnd(text, e);
    GapEndSound(text, e);
    DigitsFromSound(text, c);
    var d := SkipDigits(text, c);
    assert IsMatch(text, i, e, c, d);
  }

  /** Every match at i is found by the scanner, with the same number. */
  lemma MatchAtComplete(text: string, i: nat, e: nat, c: nat, d: nat)
    requires IsMatch(text, i, e, c, d)
    ensures MatchAt(text, i) == Some(DigitsValue(text[c..d]))
  {
    LabelEndSpan(text, i, e);
    assert IsDigit(text[c]) by {
      DigitsSlice(text, c, d);
    }
    GapEndComplete(text, e, c);
    DigitsFromComplete(text, c, d);
  }

  /** A result of extract_admission_id is the digit group of a match, and no
      match of the pattern starts further left. */
  lemma ExtractSound(text: string)
    requires ExtractAdmissionId(Some(text)).Some?
    ensures exists p: nat, e: nat, c: nat, d: nat ::
              IsMatch(text, p, e, c, d) && ExtractAdmissionId(Some(text)) == Some(DigitsValue(text[c..d])) &&
              forall q: nat, e': nat, c': nat, d': nat :: q < p ==> !IsMatch(text, q, e', c', d')
  {
    var p :| 0 <= p < |text| && MatchAt(text, p) == Search(text, 0) &&
             forall q :: 0 <= q < p ==> MatchAt(text, q).None?;
    MatchAtSound(text, p);
    var e: nat, c: nat, d: nat :| IsMatch(text, p, e, c, d) && MatchAt(text, p) == Some(DigitsValue(text[c..d]));
    forall q: nat, e': nat, c': nat, d': nat | q < p ensures !IsMatch(text, q, e', c', d') {
      if IsMatch(text, q, e', c', d') {
        MatchAtComplete(text, q, e', c', d');
      }
    }
  }

  /** extract_admission_id gives None on a string exactly when the pattern
      matches nowhere in it. */
  lemma ExtractNoneIff(text: string)
    ensures ExtractAdmissionId(Some(text)).None? <==> forall p: nat, e: nat, c: nat, d: nat :: !IsMatch(text, p, e, c, d)
  {
    if ExtractAdmissionId(Some(text)).None? {
      forall p: nat, e: nat, c: nat, d: nat ensures !IsMatch(text, p, e, c, d) {
        if IsMatch(text, p, e, c, d) {
          MatchAtComplete(text, p, e, c, d);
        }
      }
    } else {
      ExtractSound(text);
    }
  }

  /** The leftmost position where the scanner reads a number decides the id. */
  lemma LeftmostMatchWins(text: string, p: nat)
    requires p < |text| && MatchAt(text, p).Some?
    requires forall q: nat :: q < p ==> MatchAt(text, q).None?
    ensures ExtractAdmissionId(Some(text)) == MatchAt(text, p)
  {
    var r := Search(text, 0);
    if r.Some? {
      var p': nat :| p' < |text| && MatchAt(text, p') == r && forall q :: 0 <= q < p' ==> MatchAt(text, q).None?;
      assert !(p < p') && !(p' < p);
    }
  }

  /** A word is found, ignoring case, where it occurs exactly. */
  lemma {:induction false} StartsIgnoringCaseExact(s: string, word: string)
    requires StartsWith(s, word)
    ensures StartsIgnoringCase(s, word)
    decreases |word|
  {
    if word != [] {
      assert s[1..][..|word| - 1] == word[1..];
      StartsIgnoringCaseExact(s[1..], word[1..]);
    }
  }

  /** A character no label can start with: not an h or an a, in either case. */
  predicate NotLabelChar(c: char) {
    LowerChar(c) != 'h' && LowerChar(c) != 'a'
  }

  /** No label starts at a character other than h or a. */
  lemma NoLabelStart(text: string, q: nat)
    requires q < |text| && NotLabelChar(text[q])
    ensures MatchAt(text, q).None?
  {
    assert LowerChar(HadmLabel[0]) == 'h' && LowerChar(AdmissionLabel[0]) == 'a';
  }

  /** No match starts in a stretch free of h and a. */
  lemma NoLabelIn(text: string, lo: nat, hi: nat)
    requires lo <= hi <= |text|
    requires forall k :: lo <= k < hi ==> NotLabelChar(text[k])
    ensures forall q: nat :: lo <= q < hi ==> MatchAt(text, q).None?
  {
    forall q: nat | lo <= q < hi ensures MatchAt(text, q).None? {
      NoLabelStart(text, q);
    }
  }

  /** "HADM_ID = " at position i, then digits to the end of the text: when
      no match starts before i, those digits are the id. */
  lemma LabelledIdFound(text: string, i: nat)
    requires i + 10 < |text|
    requires text[i..i + 7] == HadmLabel && text[i + 7..i + 10] == " = " && AllDigits(text[i + 10..])
    requires forall q: nat :: q < i ==> MatchAt(text, q).None?
    ensures ExtractAdmissionId(Some(text)) == Some(DigitsValue(text[i + 10..]))
  {
    var e, c := i + 7, i + 10;
    assert text[i..][..|HadmLabel|] == HadmLabel;
    StartsIgnoringCaseExact(text[i..], HadmLabel);
    assert LabelSpan(text, i, e);
    assert text[e] == text[i + 7..i + 10][0] == ' ';
    assert text[e + 1] == text[i + 7..i + 10][1] == '=';
    assert text[e + 2] == text[i + 7..i + 10][2] == ' ';
    assert Gap(text, e, c);
    assert text[c..|text|] == text[i + 10..];
    assert DigitGroup(text, c, |text|);
    MatchAtComplete(text, i, e, c, |text|);
    LeftmostMatchWins(text, i);
  }

  /** One more digit on the right: ten times the value, plus the digit. */
  lemma DigitsValueSnoc(s: string, c: char)
    requires AllDigits(s) && IsDigit(c)
    ensures AllDigits(s + [c]) && DigitsValue(s + [c]) == DigitsValue(s) * 10 + (c as int - '0' as int)
  {
    assert (s + [c])[..|s|] == s;
  }

  /** The value of the example's digits. */
  lemma DocExampleDigits(d: string)
    requires d == "113333"
    ensures AllDigits(d) && DigitsValue(d) == 113333
  {
    var d1 := ['1'];
    assert DigitsValue(d1) == 1;
    DigitsValueSnoc(d1, '1');
    DigitsValueSnoc(d1 + ['1'], '3');
    DigitsValueSnoc(d1 + ['1'] + ['3'], '3');
    DigitsValueSnoc(d1 + ['1'] + ['3'] + ['3'], '3');
    DigitsValueSnoc(d1 + ['1'] + ['3'] + ['3'] + ['3'], '3');
    assert d == d1 + ['1'] + ['3'] + ['3'] + ['3'] + ['3'];
  }

  /** No label starts at an h, in either case, followed by a character
      other than a. */
  lemma NoLabelAfterH(text: string, q: nat)
    requires q + 1 < |text| && LowerChar(text[q]) != 'a' && LowerChar(text[q + 1]) != 'a'
    ensures MatchAt(text, q).None?
  {
    var rest := text[q..][1..];
    assert rest[0] == text[q + 1];
    assert LowerChar(HadmLabel[1..][0]) == 'a';
    assert !StartsIgnoringCase(rest, HadmLabel[1..]);
    assert !LabelAt(text, q, HadmLabel);
    assert LowerChar(AdmissionLabel[0]) == 'a';
    assert !LabelAt(text, q, AdmissionLabel);
  }

  // The documented example, in pieces: the text before the H of WHERE, the
  // text between its E and the label, and the labelled digits.
  const DocHead := "SELECT ... W"
  const DocMiddle := "RE PRESCRIPTIONS."
  const DocTail := "HADM_ID = 113333"

  /** The text of the documented example, given by its pieces. */
  predicate IsDocExample(text: string) {
    |text| == 47 && text[..12] == DocHead && text[12..14] == "HE" && text[14..31] == DocMiddle && text[31..] == DocTail
  }

  /** No match starts in the example's head, before WHERE's H. */
  lemma DocHeadClear(text: string)
    requires IsDocExample(text)
    ensures forall q: nat :: q < 12 ==> MatchAt(text, q).None?
  {
    assert forall k :: 0 <= k < |DocHead| ==> NotLabelChar(DocHead[k]);
    assert forall k :: 0 <= k < 12 ==> text[k] == text[..12][k];
    NoLabelIn(text, 0, 12);
  }

  /** No match starts in the text between WHERE's E and the label. */
  lemma DocMiddleClear(text: string)
    requires IsDocExample(text)
    ensures forall q: nat :: 14 <= q < 31 ==> MatchAt(text, q).None?
  {
    assert forall k :: 0 <= k < |DocMiddle| ==> NotLabelChar(DocMiddle[k]);
    assert forall k :: 14 <= k < 31 ==> text[k] == text[14..31][k - 14];
    NoLabelIn(text, 14, 31);
  }

  /** No match starts at the H or the E of WHERE. */
  lemma DocWhereClear(text: string)
    requires IsDocExample(text)
    ensures MatchAt(text, 12).None? && MatchAt(text, 13).None?
  {
    assert text[12] == text[12..14][0] == 'H' && text[13] == text[12..14][1] == 'E';
    NoLabelAfterH(text, 12);
    NoLabelStart(text, 13);
  }

  /** No match starts before the label of the example. */
  lemma DocNoMatchBefore(text: string)
    requires IsDocExample(text)
    ensures forall q: nat :: q < 31 ==> MatchAt(text, q).None?
  {
    DocHeadClear(text);
    DocWhereClear(text);
    DocMiddleClear(text);
  }

  /** The example's label, gap and digits. */
  lemma DocLabelled(text: string)
    requires IsDocExample(text)
    ensures text[31..38] == HadmLabel && text[38..41] == " = " && text[41..] == "113333"
  {
    assert text[31..38] == text[31..][..7];
    assert text[38..41] == text[31..][7..10];
    assert text[41..] == text[31..][10..];
  }

  /** The example of the function's documentation: the id of
      "SELECT ... WHERE PRESCRIPTIONS.HADM_ID = 113333" is 113333. The only
      h or a before the label, the H of WHERE, is followed by an E. */
  lemma DocumentedExample(text: string)
    requires IsDocExample(text)
    ensures ExtractAdmissionId(Some(text)) == Some(113333)
  {
    DocNoMatchBefore(text);
    DocLabelled(text);
    DocExampleDigits(text[41..]);
    LabelledIdFound(text, 31);
  }


  /** Text shorter than the shorter label holds no admission id. */
  lemma ShortTextHasNoId(text: string)
    requires |text| < |HadmLabel|
    ensures ExtractAdmissionId(Some(text)) == None
  {
    if ExtractAdmissionId(Some(text)).Some? {
      ExtractSound(text);
      assert false;
    }
  }

  // ----- The PATIENT_ID column -----

  /** A field as row.get returns it: the column is missing, the cell is
      empty (NaN), or it holds text. */
  datatype Cell = Absent | Blank | Value(s: string)

  /** str() of a field: "None" for a missing column, "nan" for an empty cell. */
  function CellText(v: Cell): string {
    match v
    case Absent => "None"
    case Blank => "nan"
    case Value(s) => s
  }

  /** Python's `a or b` on two extracted ids: None and 0 are both falsy. */
  function Or(a: Option<nat>, b: Option<nat>): Option<nat> {
    if a.Some? && a.value != 0 then a else b
  }

  /** PATIENT_ID of one row: the id in SQL_Query, or else the one in
      NL_Question. None stands for the NaN pandas stores. */
  function PatientId(sqlQuery: Cell, nlQuestion: Cell): Option<nat> {
    Or(ExtractAdmissionId(Some(CellText(sqlQuery))), ExtractAdmissionId(Some(CellText(nlQuestion))))
  }

  /** The SQL id wins when it is present and not 0; otherwise, including a
      parsed 0, the question decides, so 0 survives only from the question. */
  lemma PatientIdOr(sqlQuery: Cell, nlQuestion: Cell)
    ensures var fromSql := ExtractAdmissionId(Some(CellText(sqlQuery)));
            var fromQuestion := ExtractAdmissionId(Some(CellText(nlQuestion)));
            (fromSql.Some? && fromSql.value != 0 ==> PatientId(sqlQuery, nlQuestion) == fromSql) &&
            (fromSql == None || fromSql == Some(0) ==> PatientId(sqlQuery, nlQuestion) == fromQuestion) &&
            (PatientId(sqlQuery, nlQuestion) == Some(0) ==> fromQuestion == Some(0))
  {
  }

  /** A missing or empty field is read as "None" or "nan", which holds no
      id: the other field alone decides. */
  lemma MissingFieldHasNoId(sqlQuery: Cell, nlQuestion: Cell)
    ensures !sqlQuery.Value? ==> PatientId(sqlQuery, nlQuestion) == ExtractAdmissionId(Some(CellText(nlQuestion)))
    ensures !sqlQuery.Value? && !nlQuestion.Value? ==> PatientId(sqlQuery, nlQuestion) == None
  {
    ShortTextHasNoId("None");
    ShortTextHasNoId("nan");
  }
}

/** pipelineScalingCode/admissionsSQL.py: one row of the MIMIC-IV
    admissions table turned into a short paragraph. Each sentence appears
    only when the fields it mentions are present, and the sentences keep a
    fixed order. */
module AdmissionProse {
  import opened Wrappers
  import opened Text

  /** A cell as row.get returns it: the column is missing (None), the cell
      is empty (NaN), or it holds a string or an integer. */
  datatype Value = Missing | NaN | Str(s: string) | Int(i: int)

  /** str() of a value. */
  function ValueText(v: Value): string {
    match v
    case Missing => "None"
    case NaN => "nan"
    case Str(s) => s
    case Int(i) => IntToString(i)
  }

  /** Python truthiness of a raw value: None, "" and 0 are false, NaN is true. */
  predicate Truthy(v: Value) {
    match v
    case Missing => false
    case NaN => true
    case Str(s) => s != ""
    case Int(i) => i != 0
  }

  /** A value that is neither null nor blank. */
  predicate Given(v: Value) {
    !v.Missing? && !v.NaN? && !AllSpace(ValueText(v))
  }

  /** A string value that is not blank. */
  predicate GivenText(v: Value) {
    v.Str? && !AllSpace(v.s)
  }

  /** The text of an integer is never blank. */
  lemma IntTextNotBlank(v: Value)
    ensures v.Int? ==> !AllSpace(ValueText(v))
  {
    if v.Int? {
      var r := IntToString(v.i);
      if v.i >= 0 {
        assert IsDigit(r[0]);
      } else {
        assert r[0] == '-';
      }
    }
  }

  /** safe_str. */
  function SafeStr(v: Value): Option<string> {
    if v.Missing? || v.NaN? || Strip(ValueText(v)) == "" then None else Some(ValueText(v))
  }

  /** safe_str gives None for a null value or one whose text is blank, and
      otherwise the value's text, which is then never empty. */
  lemma SafeStrSpec(v: Value)
    ensures SafeStr(v).Some? <==> Given(v)
    ensures SafeStr(v).Some? ==> SafeStr(v).value == ValueText(v) && SafeStr(v).value != ""
  {
    IntTextNotBlank(v);
  }

  /** safe_lower. */
  function SafeLower(v: Value): Option<string> {
    if v.Str? && Strip(v.s) != "" then Some(Lower(v.s)) else None
  }

  /** safe_lower gives the lower-cased string when the value is a non-blank
      string, and None otherwise, for an integer too. */
  lemma SafeLowerSpec(v: Value)
    ensures SafeLower(v).Some? <==> GivenText(v)
    ensures SafeLower(v).Some? ==>
              var r := SafeLower(v).value;
              r == Lower(v.s) && r != "" && forall k :: 0 <= k < |r| ==> !('A' <= r[k] <= 'Z')
  {
  }

  /** The fields of an admissions row that row_to_prose reads. */
  datatype AdmissionRow = AdmissionRow(
    subjectId: Value, admitTime: Value, dischTime: Value, hadmId: Value, deathTime: Value,
    admissionType: Value, admitProviderId: Value, admittingProviderId: Value,
    admissionLocation: Value, dischargeLocation: Value,
    insurance: Value, language: Value, maritalStatus: Value, race: Value,
    edRegTime: Value, edOutTime: Value, hospitalExpireFlag: Value)

  /** The provider: admitprovider_id, or admitting_provider_id when the
      first is falsy, made safe. */
  function Provider(row: AdmissionRow): Option<string> {
    SafeStr(if Truthy(row.admitProviderId) then row.admitProviderId else row.admittingProviderId)
  }

  function OrUnknown(v: Option<string>): string {
    if v.Some? then v.value else "unknown"
  }

  // ----- The sentences, one function each, in the order they are emitted -----

  function StaySentence(row: AdmissionRow): Option<string> {
    var subject, adm, dis := SafeStr(row.subjectId), SafeStr(row.admitTime), SafeStr(row.dischTime);
    if subject.Some? && adm.Some? && dis.Some? then
      Some("Patient " + subject.value + " was admitted on " + adm.value + " and discharged on " + dis.value + ".")
    else None
  }

  function IdSentence(row: AdmissionRow): Option<string> {
    var hadm := SafeStr(row.hadmId);
    if hadm.Some? then Some("Their hospital admission ID was " + hadm.value + ".") else None
  }

  function DeathSentence(row: AdmissionRow): Option<string> {
    var death := SafeStr(row.deathTime);
    if death.Some? then Some("They died on " + death.value + ".") else None
  }

  function TypeSentence(row: AdmissionRow): Option<string> {
    var kind, provider := SafeLower(row.admissionType), Provider(row);
    if kind.None? then None
    else if provider.Some? then
      Some("The admission type was " + kind.value + ", and they were admitted by provider " + provider.value + ".")
    else Some("The admission type was " + kind.value + ".")
  }

  function LocationSentence(row: AdmissionRow): Option<string> {
    var from, to := SafeLower(row.admissionLocation), SafeLower(row.dischargeLocation);
    if from.Some? || to.Some? then
      Some("They arrived via " + OrUnknown(from) + " and were discharged to " + OrUnknown(to) + ".")
    else None
  }

  /** The labelled insurance, language and marital-status parts present. */
  function DemographicParts(row: AdmissionRow): seq<string> {
    Tagged("Insurance: ", SafeStr(row.insurance)) + Tagged("Language: ", SafeStr(row.language)) +
    Tagged("Marital status: ", SafeLower(row.maritalStatus))
  }

  /** A present value with its label in front, as a list of zero or one parts. */
  function Tagged(tag: string, x: Option<string>): (r: seq<string>)
    ensures |r| <= 1
  {
    if x.Some? then [tag + x.value] else []
  }

  function DemographicsSentence(row: AdmissionRow): Option<string> {
    var parts := DemographicParts(row);
    if parts != [] then Some(Join(parts, ", ") + ".") else None
  }

  function RaceSentence(row: AdmissionRow): Option<string> {
    var race := SafeStr(row.race);
    if race.Some? then Some("Race: " + race.value + ".") else None
  }

  function EdSentence(row: AdmissionRow): Option<string> {
    var reg, out := SafeStr(row.edRegTime), SafeStr(row.edOutTime);
    if reg.Some? || out.Some? then
      Some("ED registration: " + OrUnknown(reg) + ", ED out: " + OrUnknown(out) + ".")
    else None
  }

  function ExpireSentence(row: AdmissionRow): Option<string> {
    var flag := SafeStr(row.hospitalExpireFlag);
    if flag.Some? then Some("Hospital expire flag: " + flag.value + ".") else None
  }

  /** A sentence as a list of zero or one sentences. */
  function Listed(x: Option<string>): seq<string> {
    if x.Some? then [x.value] else []
  }

  /** The sentences of a row, in emission order, section by section. */
  function Sentences(row: AdmissionRow): seq<string> {
    (Listed(StaySentence(row)) + Listed(IdSentence(row))) + Listed(DeathSentence(row)) +
    Listed(TypeSentence(row)) + Listed(LocationSentence(row)) + Listed(DemographicsSentence(row)) +
    Listed(RaceSentence(row)) + Listed(EdSentence(row)) + Listed(ExpireSentence(row))
  }

  /** row_to_prose: the sentences whose fields are present, in fixed order,
      joined by single spaces. Each section of the source is a method below
      that returns what it appends. */
  method RowToProse(row: AdmissionRow) returns (prose: string)
    ensures prose == Join(Sentences(row), " ")
  {
    var sentences: seq<string> := [];
    var part := AddTimes(row);
    sentences := sentences + part;
    assert sentences == part;
    part := AddDeath(row);
    sentences := sentences + part;
    part := AddTypeAndProvider(row);
    sentences := sentences + part;
    part := AddLocations(row);
    sentences := sentences + part;
    part := AddDemographics(row);
    sentences := sentences + part;
    part := AddRace(row);
    sentences := sentences + part;
    part := AddEdTimes(row);
    sentences := sentences + part;
    part := AddExpireFlag(row);
    sentences := sentences + part;
    prose := Join(sentences, " ");
  }

  /** The admission/discharge-times section. */
  method AddTimes(row: AdmissionRow) returns (out: seq<string>)
    ensures out == Listed(StaySentence(row)) + Listed(IdSentence(row))
  {
    out := [];
    var subjectId := SafeStr(row.subjectId);
    var admTime := SafeStr(row.admitTime);
    var disTime := SafeStr(row.dischTime);
    var hadmId := SafeStr(row.hadmId);
    if subjectId.Some? && admTime.Some? && disTime.Some? {
      var sentence := "Patient " + subjectId.value + " was admitted on " + admTime.value +
                      " and discharged on " + disTime.value + ".";
      assert StaySentence(row) == Some(sentence);
      out := [sentence];
    } else {
      assert StaySentence(row) == None;
    }
    if hadmId.Some? {
      var sentence := "Their hospital admission ID was " + hadmId.value + ".";
      assert IdSentence(row) == Some(sentence);
      out := out + [sentence];
    } else {
      assert IdSentence(row) == None;
    }
  }

  /** The death-information section. */
  method AddDeath(row: AdmissionRow) returns (out: seq<string>)
    ensures out == Listed(DeathSentence(row))
  {
    out := [];
    var deathTime := SafeStr(row.deathTime);
    if deathTime.Some? {
      var sentence := "They died on " + deathTime.value + ".";
      assert DeathSentence(row) == Some(sentence);
      out := [sentence];
    } else {
      assert DeathSentence(row) == None;
    }
  }

  /** The admission-type-and-provider section. */
  method AddTypeAndProvider(row: AdmissionRow) returns (out: seq<string>)
    ensures out == Listed(TypeSentence(row))
  {
    out := [];
    var admissionType := SafeLower(row.admissionType);
    var provider := SafeStr(if Truthy(row.admitProviderId) then row.admitProviderId else row.admittingProviderId);
    assert provider == Provider(row);
    if admissionType.Some? {
      if provider.Some? {
        var sentence := "The admission type was " + admissionType.value +
                        ", and they were admitted by provider " + provider.value + ".";
        assert TypeSentence(row) == Some(sentence);
        out := [sentence];
      } else {
        var sentence := "The admission type was " + admissionType.value + ".";
        assert TypeSentence(row) == Some(sentence);
        out := [sentence];
      }
    } else {
      assert TypeSentence(row) == None;
    }
  }

  /** The admission/discharge-location section. */
  method AddLocations(row: AdmissionRow) returns (out: seq<string>)
    ensures out == Listed(LocationSentence(row))
  {
    out := [];
    var admissionLoc := SafeLower(row.admissionLocation);
    var dischargeLoc := SafeLower(row.dischargeLocation);
    if admissionLoc.Some? || dischargeLoc.Some? {
      var sentence := "They arrived via " + OrUnknown(admissionLoc) + " and were discharged to " +
                      OrUnknown(dischargeLoc) + ".";
      assert LocationSentence(row) == Some(sentence);
      out := [sentence];
    } else {
      assert LocationSentence(row) == None;
    }
  }

  /** The insurance, language and marital-status section. */
  method AddDemographics(row: AdmissionRow) returns (out: seq<string>)
    ensures out == Listed(DemographicsSentence(row))
  {
    out := [];
    var insurance := SafeStr(row.insurance);
    var language := SafeStr(row.language);
    var marital := SafeLower(row.maritalStatus);
    var parts: seq<string> := [];
    if insurance.Some? { parts := ["Insurance: " + insurance.value]; }
    assert parts == Tagged("Insurance: ", insurance);
    if language.Some? {
      parts := parts + ["Language: " + language.value];
    } else {
      assert parts == parts + Tagged("Language: ", language);
    }
    ghost var twoParts := Tagged("Insurance: ", insurance) + Tagged("Language: ", language);
    assert parts == twoParts;
    if marital.Some? {
      parts := parts + ["Marital status: " + marital.value];
    } else {
      assert parts == parts + Tagged("Marital status: ", marital);
    }
    assert parts == twoParts + Tagged("Marital status: ", marital);
    if parts != [] {
      var sentence := Join(parts, ", ") + ".";
      assert DemographicsSentence(row) == Some(sentence);
      out := [sentence];
    } else {
      assert DemographicsSentence(row) == None;
    }
  }

  /** The race section. */
  method AddRace(row: AdmissionRow) returns (out: seq<string>)
    ensures out == Listed(RaceSentence(row))
  {
    out := [];
    var race := SafeStr(row.race);
    if race.Some? {
      var sentence := "Race: " + race.value + ".";
      assert RaceSentence(row) == Some(sentence);
      out := [sentence];
    } else {
      assert RaceSentence(row) == None;
    }
  }

  /** The ED-times section. */
  method AddEdTimes(row: AdmissionRow) returns (out: seq<string>)
    ensures out == Listed(EdSentence(row))
  {
    out := [];
    var edRegTime := SafeStr(row.edRegTime);
    var edOutTime := SafeStr(row.edOutTime);
    if edRegTime.Some? || edOutTime.Some? {
      var sentence := "ED registration: " + OrUnknown(edRegTime) + ", ED out: " + OrUnknown(edOutTime) + ".";
      assert EdSentence(row) == Some(sentence);
      out := [sentence];
    } else {
      assert EdSentence(row) == None;
    }
  }

  /** The hospital-expire-flag section. */
  method AddExpireFlag(row: AdmissionRow) returns (out: seq<string>)
    ensures out == Listed(ExpireSentence(row))
  {
    out := [];
    var hospitalFlag := SafeStr(row.hospitalExpireFlag);
    if hospitalFlag.Some? {
      var sentence := "Hospital expire flag: " + hospitalFlag.value + ".";
      assert ExpireSentence(row) == Some(sentence);
      out := [sentence];
    } else {
      assert ExpireSentence(row) == None;
    }
  }

  // ----- What the sentences promise -----

  /** The first three sentences, when emitted, are not empty. */
  lemma EarlyNonEmpty(row: AdmissionRow)
    ensures StaySentence(row).Some? ==> |StaySentence(row).value| > 0
    ensures IdSentence(row).Some? ==> |IdSentence(row).value| > 0
    ensures DeathSentence(row).Some? ==> |DeathSentence(row).value| > 0
  {
  }

  /** The admission-type sentence, when emitted, is not empty. */
  lemma TypeNonEmpty(row: AdmissionRow)
    ensures TypeSentence(row).Some? ==> |TypeSentence(row).value| > 0
  {
  }

  /** The location sentence, when emitted, is not empty. */
  lemma LocationNonEmpty(row: AdmissionRow)
    ensures LocationSentence(row).Some? ==> |LocationSentence(row).value| > 0
  {
  }

  /** The demographics sentence, when emitted, is not empty. */
  lemma DemographicsNonEmpty(row: AdmissionRow)
    ensures DemographicsSentence(row).Some? ==> |DemographicsSentence(row).value| > 0
  {
  }

  /** The last three sentences, when emitted, are not empty. */
  lemma LateNonEmpty(row: AdmissionRow)
    ensures RaceSentence(row).Some? ==> |RaceSentence(row).value| > 0
    ensures EdSentence(row).Some? ==> |EdSentence(row).value| > 0
    ensures ExpireSentence(row).Some? ==> |ExpireSentence(row).value| > 0
  {
  }

  /** Nine listed sentences, none of them empty, make a list with no empty item. */
  lemma NineNonEmpty(a: Option<string>, b: Option<string>, c: Option<string>,
                     d: Option<string>, e: Option<string>, f: Option<string>,
                     g: Option<string>, h: Option<string>, i: Option<string>)
    requires a.Some? ==> |a.value| > 0
    requires b.Some? ==> |b.value| > 0
    requires c.Some? ==> |c.value| > 0
    requires d.Some? ==> |d.value| > 0
    requires e.Some? ==> |e.value| > 0
    requires f.Some? ==> |f.value| > 0
    requires g.Some? ==> |g.value| > 0
    requires h.Some? ==> |h.value| > 0
    requires i.Some? ==> |i.value| > 0
    ensures var all := (Listed(a) + Listed(b)) + Listed(c) + Listed(d) + Listed(e) + Listed(f) +
                       Listed(g) + Listed(h) + Listed(i);
            forall t :: t in all ==> |t| > 0
  {
  }

  /** No sentence the row yields is empty. */
  lemma SentencesNonEmpty(row: AdmissionRow)
    ensures forall t :: t in Sentences(row) ==> |t| > 0
  {
    EarlyNonEmpty(row);
    TypeNonEmpty(row);
    LocationNonEmpty(row);
    DemographicsNonEmpty(row);
    LateNonEmpty(row);
    NineNonEmpty(StaySentence(row), IdSentence(row), DeathSentence(row), TypeSentence(row),
                 LocationSentence(row), DemographicsSentence(row), RaceSentence(row),
                 EdSentence(row), ExpireSentence(row));
  }

  /** The paragraph is empty exactly when no sentence is emitted. */
  lemma ProseEmptyIff(row: AdmissionRow)
    ensures Join(Sentences(row), " ") == "" <==> Sentences(row) == []
  {
    var ss := Sentences(row);
    if ss != [] {
      SentencesNonEmpty(row);
      assert forall k :: 0 <= k < |ss| ==> ss[k] in ss;
      JoinEnds(ss, " ");
    }
  }

  /** A cell that pandas holds as null. */
  predicate Null(v: Value) {
    v.Missing? || v.NaN?
  }

  /** A row whose every field is null yields no sentence, so an empty paragraph. */
  lemma NullRowHasNoSentences(row: AdmissionRow)
    requires Null(row.subjectId) && Null(row.admitTime) && Null(row.dischTime) && Null(row.hadmId)
    requires Null(row.deathTime) && Null(row.admissionType) && Null(row.admitProviderId)
    requires Null(row.admittingProviderId) && Null(row.admissionLocation) && Null(row.dischargeLocation)
    requires Null(row.insurance) && Null(row.language) && Null(row.maritalStatus) && Null(row.race)
    requires Null(row.edRegTime) && Null(row.edOutTime) && Null(row.hospitalExpireFlag)
    ensures Sentences(row) == []
  {
    StayGate(row);
    SingleFieldGates(row);
    TypeGate(row);
    LocationGate(row);
    DemographicsGate(row);
    EdGate(row);
  }

  /** The admitted/discharged sentence needs all three of subject, admit
      time and discharge time. */
  lemma StayGate(row: AdmissionRow)
    ensures StaySentence(row).Some? <==> Given(row.subjectId) && Given(row.admitTime) && Given(row.dischTime)
  {
    SafeStrSpec(row.subjectId);
    SafeStrSpec(row.admitTime);
    SafeStrSpec(row.dischTime);
  }

  /** The admission-id, death, race and expire-flag sentences each follow
      their one field. */
  lemma SingleFieldGates(row: AdmissionRow)
    ensures IdSentence(row).Some? <==> Given(row.hadmId)
    ensures DeathSentence(row).Some? <==> Given(row.deathTime)
    ensures RaceSentence(row).Some? <==> Given(row.race)
    ensures ExpireSentence(row).Some? <==> Given(row.hospitalExpireFlag)
  {
    SafeStrSpec(row.hadmId);
    SafeStrSpec(row.deathTime);
    SafeStrSpec(row.race);
    SafeStrSpec(row.hospitalExpireFlag);
  }

  /** A zero expire flag is still reported: 0 is not null. */
  lemma ExpireFlagZero(row: AdmissionRow)
    requires row.hospitalExpireFlag == Int(0)
    ensures ExpireSentence(row) == Some("Hospital expire flag: " + "0" + ".")
  {
    assert NatToString(0) == [DigitChar(0)] == "0";
  }

  /** The provider is admitprovider_id when that is truthy and
      admitting_provider_id otherwise, each when it has text; a NaN first
      id is truthy, so it never falls back, while a 0 or empty first id does. */
  lemma ProviderChoice(row: AdmissionRow)
    ensures Provider(row).Some? <==>
              (Truthy(row.admitProviderId) && Given(row.admitProviderId)) ||
              (!Truthy(row.admitProviderId) && Given(row.admittingProviderId))
    ensures Provider(row).Some? ==>
              Provider(row).value == ValueText(if Truthy(row.admitProviderId) then row.admitProviderId
                                               else row.admittingProviderId)
    ensures row.admitProviderId.NaN? ==> Provider(row).None?
  {
    SafeStrSpec(row.admitProviderId);
    SafeStrSpec(row.admittingProviderId);
  }

  /** The admission-type sentence needs a non-blank string admission type,
      whatever the provider; the provider clause is added exactly when a
      provider is known. */
  lemma TypeGate(row: AdmissionRow)
    ensures TypeSentence(row).Some? <==> GivenText(row.admissionType)
    ensures GivenText(row.admissionType) && Provider(row).None? ==>
              TypeSentence(row) == Some("The admission type was " + Lower(row.admissionType.s) + ".")
    ensures GivenText(row.admissionType) && Provider(row).Some? ==>
              TypeSentence(row) == Some("The admission type was " + Lower(row.admissionType.s) +
                                        ", and they were admitted by provider " + Provider(row).value + ".")
  {
    SafeLowerSpec(row.admissionType);
  }

  /** The location sentence needs either location. */
  lemma LocationGate(row: AdmissionRow)
    ensures LocationSentence(row).Some? <==> GivenText(row.admissionLocation) || GivenText(row.dischargeLocation)
  {
    SafeLowerSpec(row.admissionLocation);
    SafeLowerSpec(row.dischargeLocation);
  }

  /** A missing arrival location is named "unknown". */
  lemma LocationFromUnknown(row: AdmissionRow)
    requires !GivenText(row.admissionLocation) && GivenText(row.dischargeLocation)
    ensures LocationSentence(row) == Some("They arrived via " + "unknown" + " and were discharged to " +
                                          Lower(row.dischargeLocation.s) + ".")
  {
    SafeLowerSpec(row.admissionLocation);
  }

  /** A missing discharge location is named "unknown". */
  lemma LocationToUnknown(row: AdmissionRow)
    requires GivenText(row.admissionLocation) && !GivenText(row.dischargeLocation)
    ensures LocationSentence(row) == Some("They arrived via " + Lower(row.admissionLocation.s) +
                                          " and were discharged to " + "unknown" + ".")
  {
    SafeLowerSpec(row.dischargeLocation);
  }

  /** The ED sentence needs either ED time. */
  lemma EdGate(row: AdmissionRow)
    ensures EdSentence(row).Some? <==> Given(row.edRegTime) || Given(row.edOutTime)
  {
    SafeStrSpec(row.edRegTime);
    SafeStrSpec(row.edOutTime);
  }

  /** A missing ED registration time is named "unknown". */
  lemma EdRegUnknown(row: AdmissionRow)
    requires !Given(row.edRegTime) && Given(row.edOutTime)
    ensures EdSentence(row) == Some("ED registration: " + "unknown" + ", ED out: " + ValueText(row.edOutTime) + ".")
  {
    SafeStrSpec(row.edRegTime);
    SafeStrSpec(row.edOutTime);
  }

  /** A missing ED out time is named "unknown". */
  lemma EdOutUnknown(row: AdmissionRow)
    requires Given(row.edRegTime) && !Given(row.edOutTime)
    ensures EdSentence(row) == Some("ED registration: " + ValueText(row.edRegTime) + ", ED out: " + "unknown" + ".")
  {
    SafeStrSpec(row.edRegTime);
    SafeStrSpec(row.edOutTime);
  }

  /** The insurance/language/marital sentence appears when at least one of
      the three is present; it lists the present ones in that order, one
      part each. */
  lemma DemographicsGate(row: AdmissionRow)
    ensures DemographicsSentence(row).Some? <==>
              Given(row.insurance) || Given(row.language) || GivenText(row.maritalStatus)
    ensures |DemographicParts(row)| ==
              (if Given(row.insurance) then 1 else 0) + (if Given(row.language) then 1 else 0) +
              (if GivenText(row.maritalStatus) then 1 else 0)
    ensures Given(row.insurance) ==> DemographicParts(row)[0] == "Insurance: " + ValueText(row.insurance)
    ensures DemographicParts(row) ==
              (if Given(row.insurance) then ["Insurance: " + ValueText(row.insurance)] else [])
              + (if Given(row.language) then ["Language: " + ValueText(row.language)] else [])
              + (if GivenText(row.maritalStatus) then ["Marital status: " + Lower(row.maritalStatus.s)] else [])
    ensures DemographicParts(row) != [] ==>
              DemographicsSentence(row) == Some(Join(DemographicParts(row), ", ") + ".")
  {
    SafeStrSpec(row.insurance);
    SafeStrSpec(row.language);
    SafeLowerSpec(row.maritalStatus);
  }
}

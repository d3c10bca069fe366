/** The `useFormValidation` hook: `validateForm` checks a FormData snapshot,
    replaces the hook's `errors` map with the messages of the checks that failed
    and returns whether none did.

    Errors below is the reference definition, stated slot by slot; the method
    ValidationHook.ValidateForm builds the same map the way the hook does, by a
    sequence of writes in which a later failure in a section overwrites an
    earlier one. */
module FormValidation {
  import opened JsText
  import opened SurveyData

  /** The error slots: one per top-level property and one per section. The
      hook's `errors` object is only ever read through these keys. */
  datatype Slot =
    | FullNameSlot | EmailSlot | SurveyTopicSlot
    | TechnologySlot | HealthSlot | EducationSlot
    | FeedbackSlot
  {
    /** The property name the hook uses for this slot: one of the record's
        four top-level string properties or one of its three sections. */
    function Key(): (r: string)
      ensures r in TopLevelNames || r in SectionNames
    {
      match this
      case FullNameSlot => "fullName"
      case EmailSlot => "email"
      case SurveyTopicSlot => "surveyTopic"
      case TechnologySlot => TechnologyName
      case HealthSlot => HealthName
      case EducationSlot => EducationName
      case FeedbackSlot => "feedback"
    }
  }

  /** The slot a property name belongs to, if any. */
  function SlotOfKey(name: string): Option<Slot>
  {
    if name == "fullName" then Some(FullNameSlot)
    else if name == "email" then Some(EmailSlot)
    else if name == "surveyTopic" then Some(SurveyTopicSlot)
    else if name == TechnologyName then Some(TechnologySlot)
    else if name == HealthName then Some(HealthSlot)
    else if name == EducationName then Some(EducationSlot)
    else if name == "feedback" then Some(FeedbackSlot)
    else None
  }

  /** Every slot's property name leads back to the slot. */
  lemma KeyNamesSlot(k: Slot)
    ensures SlotOfKey(k.Key()) == Some(k)
  {
    match k
    case FullNameSlot =>
    case EmailSlot =>
    case SurveyTopicSlot =>
    case TechnologySlot =>
    case HealthSlot =>
    case EducationSlot =>
    case FeedbackSlot =>
  }

  /** No two slots share a property name, so a map keyed by slots is the same
      thing as the hook's object keyed by property names. */
  lemma KeysDistinct()
    ensures forall a: Slot, b: Slot :: a.Key() == b.Key() ==> a == b
  {
    forall a: Slot, b: Slot | a.Key() == b.Key()
      ensures a == b
    {
      KeyNamesSlot(a);
      KeyNamesSlot(b);
    }
  }

  const AllSlots: set<Slot> :=
    {FullNameSlot, EmailSlot, SurveyTopicSlot, TechnologySlot, HealthSlot, EducationSlot, FeedbackSlot}

  /** The messages validateForm writes, with the text the form shows. */
  datatype ErrorMessage =
    | FullNameRequired | EmailRequired | EmailInvalid | SurveyTopicRequired
    | FavoriteLanguageRequired | YearsOfExperienceRequired
    | ExerciseFrequencyRequired | DietPreferenceRequired
    | HighestQualificationRequired | FieldOfStudyRequired
    | FeedbackRequired
  {
    function Text(): string
    {
      match this
      case FullNameRequired => "Full Name is required"
      case EmailRequired => "Email is required"
      case EmailInvalid => "Email is invalid"
      case SurveyTopicRequired => "Survey Topic is required"
      case FavoriteLanguageRequired => "Favorite Language is required"
      case YearsOfExperienceRequired => "Years of Experience is required"
      case ExerciseFrequencyRequired => "Exercise Frequency is required"
      case DietPreferenceRequired => "Diet Preference is required"
      case HighestQualificationRequired => "Highest Qualification is required"
      case FieldOfStudyRequired => "Field of Study is required"
      case FeedbackRequired => "Feedback is required (minimum 50 characters)"
    }

    /** The slot this message is written to: each slot receives exactly the
        messages of its own checks. */
    function SlotOf(): (r: Slot)
      ensures r == FullNameSlot <==> this == FullNameRequired
      ensures r == EmailSlot <==> this == EmailRequired || this == EmailInvalid
      ensures r == SurveyTopicSlot <==> this == SurveyTopicRequired
      ensures r == TechnologySlot <==> this == FavoriteLanguageRequired || this == YearsOfExperienceRequired
      ensures r == HealthSlot <==> this == ExerciseFrequencyRequired || this == DietPreferenceRequired
      ensures r == EducationSlot <==> this == HighestQualificationRequired || this == FieldOfStudyRequired
      ensures r == FeedbackSlot <==> this == FeedbackRequired
    {
      match this
      case FullNameRequired => FullNameSlot
      case EmailRequired | EmailInvalid => EmailSlot
      case SurveyTopicRequired => SurveyTopicSlot
      case FavoriteLanguageRequired | YearsOfExperienceRequired => TechnologySlot
      case ExerciseFrequencyRequired | DietPreferenceRequired => HealthSlot
      case HighestQualificationRequired | FieldOfStudyRequired => EducationSlot
      case FeedbackRequired => FeedbackSlot
    }
  }

  /** Minimum `length` of the feedback, in UTF-16 code units. */
  const MinFeedbackLength := 50

  /** The name fails exactly when it is empty or all whitespace. */
  function FullNameMessage(fullName: string): (r: Option<ErrorMessage>)
    ensures r.Some? <==> AllWs(fullName)
    ensures r.Some? ==> r.value == FullNameRequired
  {
    if Blank(fullName) then Some(FullNameRequired) else None
  }

  /** The pattern is only consulted when the trimmed address is non-empty, and is
      then applied to the address as entered: "required" for a blank address,
      "invalid" for a non-blank one the pattern rejects, nothing otherwise. */
  function EmailMessage(email: string): (r: Option<ErrorMessage>)
    ensures r == Some(EmailRequired) <==> AllWs(email)
    ensures r == Some(EmailInvalid) <==> !AllWs(email) && !EmailPattern(email)
    ensures r.None? || r == Some(EmailRequired) || r == Some(EmailInvalid)
  {
    if Blank(email) then Some(EmailRequired)
    else if !EmailPattern(email) then Some(EmailInvalid)
    else None
  }

  /** The topic is tested for being the empty string; it is not trimmed, so a
      topic of spaces passes. */
  function SurveyTopicMessage(topic: string): (r: Option<ErrorMessage>)
    ensures r.Some? <==> |topic| == 0
    ensures r.Some? ==> r.value == SurveyTopicRequired
  {
    if topic == "" then Some(SurveyTopicRequired) else None
  }

  /** Checked only for topic Technology; a field fails only when empty (it is
      not trimmed). The two checks share one slot, so what remains is the
      message of the LATER failing check, the one on years of experience. */
  function TechnologyMessage(topic: string, t: TechnologySection): (r: Option<ErrorMessage>)
    ensures r.Some? <==> topic == TechnologyTopic && (t.favoriteLanguage == "" || t.yearsOfExperience == "")
    ensures r.Some? && t.yearsOfExperience == "" ==> r.value == YearsOfExperienceRequired
    ensures r.Some? && t.yearsOfExperience != "" ==> r.value == FavoriteLanguageRequired
  {
    if topic != TechnologyTopic then None
    else if t.yearsOfExperience == "" then Some(YearsOfExperienceRequired)
    else if t.favoriteLanguage == "" then Some(FavoriteLanguageRequired)
    else None
  }

  /** Checked only for topic Health; neither field is trimmed, and the later
      check, on the diet preference, wins. */
  function HealthMessage(topic: string, h: HealthSection): (r: Option<ErrorMessage>)
    ensures r.Some? <==> topic == HealthTopic && (h.exerciseFrequency == "" || h.dietPreference == "")
    ensures r.Some? && h.dietPreference == "" ==> r.value == DietPreferenceRequired
    ensures r.Some? && h.dietPreference != "" ==> r.value == ExerciseFrequencyRequired
  {
    if topic != HealthTopic then None
    else if h.dietPreference == "" then Some(DietPreferenceRequired)
    else if h.exerciseFrequency == "" then Some(ExerciseFrequencyRequired)
    else None
  }

  /** Checked only for topic Education; `fieldOfStudy` is trimmed and its
      check, the later one, wins; `highestQualification` is not trimmed. */
  function EducationMessage(topic: string, e: EducationSection): (r: Option<ErrorMessage>)
    ensures r.Some? <==> topic == EducationTopic && (e.highestQualification == "" || AllWs(e.fieldOfStudy))
    ensures r.Some? && AllWs(e.fieldOfStudy) ==> r.value == FieldOfStudyRequired
    ensures r.Some? && !AllWs(e.fieldOfStudy) ==> r.value == HighestQualificationRequired
  {
    if topic != EducationTopic then None
    else if Blank(e.fieldOfStudy) then Some(FieldOfStudyRequired)
    else if e.highestQualification == "" then Some(HighestQualificationRequired)
    else None
  }

  /** Blank after trimming, or shorter than the minimum before trimming. */
  function FeedbackMessage(feedback: string): (r: Option<ErrorMessage>)
    ensures r.Some? <==> AllWs(feedback) || Utf16Length(feedback) < MinFeedbackLength
    ensures r.Some? ==> r.value == FeedbackRequired
  {
    if Blank(feedback) || Utf16Length(feedback) < MinFeedbackLength then Some(FeedbackRequired)
    else None
  }

  /** The message recorded in slot k, if its check fails: always one of the
      messages that belong to slot k. */
  function SlotError(f: FormData, k: Slot): (r: Option<ErrorMessage>)
    ensures r.Some? ==> r.value.SlotOf() == k
  {
    match k
    case FullNameSlot => FullNameMessage(f.fullName)
    case EmailSlot => EmailMessage(f.email)
    case SurveyTopicSlot => SurveyTopicMessage(f.surveyTopic)
    case TechnologySlot => TechnologyMessage(f.surveyTopic, f.technologySection)
    case HealthSlot => HealthMessage(f.surveyTopic, f.healthSection)
    case EducationSlot => EducationMessage(f.surveyTopic, f.educationSection)
    case FeedbackSlot => FeedbackMessage(f.feedback)
  }

  /** The errors map `validateForm` produces for f. A section's slot only occurs
      when it is the section of f's topic. */
  function Errors(f: FormData): (e: map<Slot, ErrorMessage>)
    ensures TechnologySlot in e ==> f.surveyTopic == TechnologyTopic
    ensures HealthSlot in e ==> f.surveyTopic == HealthTopic
    ensures EducationSlot in e ==> f.surveyTopic == EducationTopic
  {
    map k | k in AllSlots && SlotError(f, k).Some? :: SlotError(f, k).value
  }

  /** The object `newErrors` as the hook stores it: each recorded slot under
      its property name, with the message's text. */
  function ErrorsObject(e: map<Slot, ErrorMessage>): (r: map<string, string>)
    ensures forall k: Slot :: k.Key() in r <==> k in e
    ensures forall k :: k in e ==> r[k.Key()] == e[k].Text()
    ensures forall name :: name in r ==> SlotOfKey(name).Some?
  {
    KeysDistinct();
    var r := map k | k in e :: k.Key() := e[k].Text();
    assert forall name :: name in r ==> SlotOfKey(name).Some? by {
      forall name | name in r
        ensures SlotOfKey(name).Some?
      {
        var k :| k in e && k.Key() == name;
        KeyNamesSlot(k);
      }
    }
    r
  }

  /** What `validateForm` returns for f: true exactly when none of the seven
      checks fails. */
  predicate IsValid(f: FormData)
    ensures IsValid(f) <==> forall k :: SlotError(f, k).None?
  {
    EmptyIffNoFailure(f);
    Errors(f) == map[]
  }

  lemma EmptyIffNoFailure(f: FormData)
    ensures Errors(f) == map[] <==> forall k :: SlotError(f, k).None?
  {
    if forall k :: SlotError(f, k).None? {
      forall k
        ensures k !in Errors(f)
      {
      }
    } else {
      var k :| SlotError(f, k).Some?;
      InAllSlots(k);
      assert k in Errors(f);
    }
  }

  /** Slot k of e holds exactly what the reference definition puts there. */
  predicate SlotAgrees(e: map<Slot, ErrorMessage>, f: FormData, k: Slot)
  {
    (k in e) == SlotError(f, k).Some? && (k in e ==> e[k] == SlotError(f, k).value)
  }

  lemma SlotsAgree(e: map<Slot, ErrorMessage>, f: FormData)
    requires forall k :: SlotAgrees(e, f, k)
    ensures e == Errors(f)
  {
    forall k
      ensures (k in e) == (k in Errors(f))
      ensures k in e ==> e[k] == Errors(f)[k]
    {
      InAllSlots(k);
      assert SlotAgrees(e, f, k);
    }
  }

  lemma InAllSlots(k: Slot)
    ensures k in AllSlots
  {
    match k
    case FullNameSlot =>
    case EmailSlot =>
    case SurveyTopicSlot =>
    case TechnologySlot =>
    case HealthSlot =>
    case EducationSlot =>
    case FeedbackSlot =>
  }

  /** Slot k of e after a check whose outcome is o: set to the message when the
      check fails, untouched when it passes. */
  function Put(e: map<Slot, ErrorMessage>, k: Slot, o: Option<ErrorMessage>): (r: map<Slot, ErrorMessage>)
    ensures r == map[] <==> e == map[] && o.None?
  {
    if o.Some? then
      var r := e[k := o.value];
      assert k in r;
      r
    else e
  }

  /** Errors(f) is what the seven checks leave behind when run one after the
      other from an empty map, in the order `validateForm` runs them. */
  lemma ErrorsInCheckOrder(f: FormData)
    ensures Errors(f) ==
      Put(Put(Put(Put(Put(Put(Put(map[],
        FullNameSlot, SlotError(f, FullNameSlot)),
        EmailSlot, SlotError(f, EmailSlot)),
        SurveyTopicSlot, SlotError(f, SurveyTopicSlot)),
        TechnologySlot, SlotError(f, TechnologySlot)),
        HealthSlot, SlotError(f, HealthSlot)),
        EducationSlot, SlotError(f, EducationSlot)),
        FeedbackSlot, SlotError(f, FeedbackSlot))
  {
    var o := k => SlotError(f, k);
    ChainCollects(o);
    assert Errors(f) == (map k | k in AllSlots && o(k).Some? :: o(k).value);
  }

  /** Writing the seven outcomes o(k) one after another, in the hook's order,
      collects exactly the failed ones: no check overwrites another's slot. */
  lemma ChainCollects(o: Slot -> Option<ErrorMessage>)
    ensures (map k | k in AllSlots && o(k).Some? :: o(k).value) ==
      Put(Put(Put(Put(Put(Put(Put(map[],
        FullNameSlot, o(FullNameSlot)),
        EmailSlot, o(EmailSlot)),
        SurveyTopicSlot, o(SurveyTopicSlot)),
        TechnologySlot, o(TechnologySlot)),
        HealthSlot, o(HealthSlot)),
        EducationSlot, o(EducationSlot)),
        FeedbackSlot, o(FeedbackSlot))
  {
    var e1 := Put(map[], FullNameSlot, o(FullNameSlot));
    var e2 := Put(e1, EmailSlot, o(EmailSlot));
    var e3 := Put(e2, SurveyTopicSlot, o(SurveyTopicSlot));
    var e4 := Put(e3, TechnologySlot, o(TechnologySlot));
    var e5 := Put(e4, HealthSlot, o(HealthSlot));
    var e6 := Put(e5, EducationSlot, o(EducationSlot));
    var e := Put(e6, FeedbackSlot, o(FeedbackSlot));
    var c := map k | k in AllSlots && o(k).Some? :: o(k).value;
    forall k
      ensures (k in e) == (k in c)
      ensures k in e ==> e[k] == c[k]
    {
      InAllSlots(k);
      match k
      case FullNameSlot =>
      case EmailSlot =>
      case SurveyTopicSlot =>
      case TechnologySlot =>
      case HealthSlot =>
      case EducationSlot =>
      case FeedbackSlot =>
    }
  }

  /** The hook's state: the `errors` map shown next to the fields. */
  class ValidationHook {
    var errors: map<Slot, ErrorMessage>

    constructor ()
      ensures errors == map[]
    {
      errors := map[];
    }

    /** `validateForm(formData)`: every check runs, each failure writes its slot
        and clears `valid`; then `errors` is replaced wholesale. */
    method ValidateForm(formData: FormData) returns (valid: bool)
      modifies this
      ensures errors == Errors(formData)
      ensures valid == (errors == map[])
      ensures valid == IsValid(formData)
    {
      valid := true;
      var newErrors: map<Slot, ErrorMessage> := map[];

      if Blank(formData.fullName) {
        newErrors := newErrors[FullNameSlot := FullNameRequired];
        valid := false;
      }
      ghost var e1 := Put(map[], FullNameSlot, SlotError(formData, FullNameSlot));
      assert newErrors == e1 && valid == (e1 == map[]);

      if Blank(formData.email) {
        newErrors := newErrors[EmailSlot := EmailRequired];
        valid := false;
      } else if !EmailPattern(formData.email) {
        newErrors := newErrors[EmailSlot := EmailInvalid];
        valid := false;
      }
      ghost var e2 := Put(e1, EmailSlot, SlotError(formData, EmailSlot));
      assert newErrors == e2 && valid == (e2 == map[]);

      if formData.surveyTopic == "" {
        newErrors := newErrors[SurveyTopicSlot := SurveyTopicRequired];
        valid := false;
      }
      ghost var e3 := Put(e2, SurveyTopicSlot, SlotError(formData, SurveyTopicSlot));
      assert newErrors == e3 && valid == (e3 == map[]);

      newErrors, valid := CheckTopicSection(formData, newErrors, valid);
      ghost var e6 := Put(Put(Put(e3,
        TechnologySlot, SlotError(formData, TechnologySlot)),
        HealthSlot, SlotError(formData, HealthSlot)),
        EducationSlot, SlotError(formData, EducationSlot));
      assert newErrors == e6 && valid == (e6 == map[]);

      if Blank(formData.feedback) || Utf16Length(formData.feedback) < MinFeedbackLength {
        newErrors := newErrors[FeedbackSlot := FeedbackRequired];
        valid := false;
      }
      ghost var e7 := Put(e6, FeedbackSlot, SlotError(formData, FeedbackSlot));
      assert newErrors == e7 && valid == (e7 == map[]);

      ErrorsInCheckOrder(formData);
      errors := newErrors;
    }

    /** The topic-dependent part of `validateForm`: only the section of the
        chosen topic is checked, and its two checks share one slot. */
    static method CheckTopicSection(formData: FormData, errs: map<Slot, ErrorMessage>, valid: bool)
      returns (e: map<Slot, ErrorMessage>, ok: bool)
      ensures e == Put(Put(Put(errs,
        TechnologySlot, SlotError(formData, TechnologySlot)),
        HealthSlot, SlotError(formData, HealthSlot)),
        EducationSlot, SlotError(formData, EducationSlot))
      ensures ok == (valid && SlotError(formData, TechnologySlot).None?
        && SlotError(formData, HealthSlot).None? && SlotError(formData, EducationSlot).None?)
    {
      e, ok := errs, valid;
      if formData.surveyTopic == TechnologyTopic {
        if formData.technologySection.favoriteLanguage == "" {
          e := e[TechnologySlot := FavoriteLanguageRequired];
          ok := false;
        }
        if formData.technologySection.yearsOfExperience == "" {
          e := e[TechnologySlot := YearsOfExperienceRequired];
          ok := false;
        }
      } else if formData.surveyTopic == HealthTopic {
        if formData.healthSection.exerciseFrequency == "" {
          e := e[HealthSlot := ExerciseFrequencyRequired];
          ok := false;
        }
        if formData.healthSection.dietPreference == "" {
          e := e[HealthSlot := DietPreferenceRequired];
          ok := false;
        }
      } else if formData.surveyTopic == EducationTopic {
        if formData.educationSection.highestQualification == "" {
          e := e[EducationSlot := HighestQualificationRequired];
          ok := false;
        }
        if Blank(formData.educationSection.fieldOfStudy) {
          e := e[EducationSlot := FieldOfStudyRequired];
          ok := false;
        }
      }
    }
  }

  /** Slot by slot: a key is present exactly when its check fails, and then
      holds that check's message. */
  lemma ErrorsAt(f: FormData, k: Slot)
    ensures (k in Errors(f)) == SlotError(f, k).Some?
    ensures k in Errors(f) ==> Errors(f)[k] == SlotError(f, k).value
  {
  }

  /** validateForm returns true exactly when every check passes. */
  lemma ValidIffEveryCheckPasses(f: FormData)
    ensures IsValid(f) <==>
      && !AllWs(f.fullName)
      && !AllWs(f.email) && EmailPattern(f.email)
      && f.surveyTopic != ""
      && (f.surveyTopic == TechnologyTopic ==>
            f.technologySection.favoriteLanguage != "" && f.technologySection.yearsOfExperience != "")
      && (f.surveyTopic == HealthTopic ==>
            f.healthSection.exerciseFrequency != "" && f.healthSection.dietPreference != "")
      && (f.surveyTopic == EducationTopic ==>
            f.educationSection.highestQualification != "" && !AllWs(f.educationSection.fieldOfStudy))
      && !AllWs(f.feedback) && Utf16Length(f.feedback) >= MinFeedbackLength
  {
    NoErrorsIffNoSlot(Errors(f));
    FullNameRule(f);
    EmailRule(f);
    SurveyTopicRule(f);
    FeedbackRule(f);
    if f.surveyTopic == TechnologyTopic {
      TechnologyRule(f);
    } else if f.surveyTopic == HealthTopic {
      HealthRule(f);
    } else if f.surveyTopic == EducationTopic {
      EducationRule(f);
    }
  }

  /** A map over the slots is empty exactly when none of the seven is set. */
  lemma NoErrorsIffNoSlot(e: map<Slot, ErrorMessage>)
    ensures e == map[] <==>
      && FullNameSlot !in e && EmailSlot !in e && SurveyTopicSlot !in e
      && TechnologySlot !in e && HealthSlot !in e && EducationSlot !in e
      && FeedbackSlot !in e
  {
    if FullNameSlot !in e && EmailSlot !in e && SurveyTopicSlot !in e
      && TechnologySlot !in e && HealthSlot !in e && EducationSlot !in e
      && FeedbackSlot !in e
    {
      forall k ensures k !in e {
        match k
        case FullNameSlot =>
        case EmailSlot =>
        case SurveyTopicSlot =>
        case TechnologySlot =>
        case HealthSlot =>
        case EducationSlot =>
        case FeedbackSlot =>
      }
    }
  }

  /** fullName fails, with its message, exactly when it is empty or all
      whitespace. */
  lemma FullNameRule(f: FormData)
    ensures FullNameSlot in Errors(f) <==> AllWs(f.fullName)
    ensures FullNameSlot in Errors(f) ==> Errors(f)[FullNameSlot] == FullNameRequired
  {
    ErrorsAt(f, FullNameSlot);
  }

  /** The two email messages: "required" for a blank address, "invalid" for a
      non-blank one the pattern rejects, and no entry otherwise. */
  lemma EmailRule(f: FormData)
    ensures AllWs(f.email) ==> EmailSlot in Errors(f) && Errors(f)[EmailSlot] == EmailRequired
    ensures !AllWs(f.email) && !EmailPattern(f.email) ==>
      EmailSlot in Errors(f) && Errors(f)[EmailSlot] == EmailInvalid
    ensures !AllWs(f.email) && EmailPattern(f.email) ==> EmailSlot !in Errors(f)
  {
    ErrorsAt(f, EmailSlot);
  }

  /** The pattern sees the address as entered: surrounding text never turns a
      match into an error. */
  lemma EmailCheckedUntrimmed(f: FormData, prefix: string, address: string, suffix: string)
    requires EmailPattern(address) && f.email == prefix + address + suffix
    ensures EmailSlot !in Errors(f)
  {
    EmailPatternPadded(prefix, address, suffix);
    var a, b :| 0 < a < |f.email| && 0 < b < |f.email| && EmailMatchAt(f.email, a, b);
    assert !IsWs(f.email[a]);
    EmailRule(f);
  }

  /** Only the empty topic is reported missing. */
  lemma SurveyTopicRule(f: FormData)
    ensures SurveyTopicSlot in Errors(f) <==> f.surveyTopic == ""
    ensures SurveyTopicSlot in Errors(f) ==> Errors(f)[SurveyTopicSlot] == SurveyTopicRequired
  {
    ErrorsAt(f, SurveyTopicSlot);
  }

  /** With topic Technology, the slot is set when either field is empty, and
      when both are, the years-of-experience message (the later write) wins. */
  lemma TechnologyRule(f: FormData)
    requires f.surveyTopic == TechnologyTopic
    ensures TechnologySlot in Errors(f) <==>
      f.technologySection.favoriteLanguage == "" || f.technologySection.yearsOfExperience == ""
    ensures f.technologySection.yearsOfExperience == "" ==>
      Errors(f)[TechnologySlot] == YearsOfExperienceRequired
    ensures f.technologySection.favoriteLanguage == "" && f.technologySection.yearsOfExperience != "" ==>
      Errors(f)[TechnologySlot] == FavoriteLanguageRequired
  {
    ErrorsAt(f, TechnologySlot);
  }

  /** With topic Health, the diet-preference message wins when both fail. */
  lemma HealthRule(f: FormData)
    requires f.surveyTopic == HealthTopic
    ensures HealthSlot in Errors(f) <==>
      f.healthSection.exerciseFrequency == "" || f.healthSection.dietPreference == ""
    ensures f.healthSection.dietPreference == "" ==>
      Errors(f)[HealthSlot] == DietPreferenceRequired
    ensures f.healthSection.exerciseFrequency == "" && f.healthSection.dietPreference != "" ==>
      Errors(f)[HealthSlot] == ExerciseFrequencyRequired
  {
    ErrorsAt(f, HealthSlot);
  }

  /** With topic Education, `fieldOfStudy` fails when blank after trimming and
      its message wins; `highestQualification` fails only when empty. */
  lemma EducationRule(f: FormData)
    requires f.surveyTopic == EducationTopic
    ensures EducationSlot in Errors(f) <==>
      f.educationSection.highestQualification == "" || AllWs(f.educationSection.fieldOfStudy)
    ensures AllWs(f.educationSection.fieldOfStudy) ==>
      Errors(f)[EducationSlot] == FieldOfStudyRequired
    ensures f.educationSection.highestQualification == "" && !AllWs(f.educationSection.fieldOfStudy) ==>
      Errors(f)[EducationSlot] == HighestQualificationRequired
  {
    ErrorsAt(f, EducationSlot);
  }

  /** The uneven trimming: a whitespace-only value passes every section check
      except the one on `fieldOfStudy`. */
  lemma WhitespaceOnlySectionValues(f: FormData, ws: string)
    requires ws != "" && AllWs(ws)
    ensures TechnologySlot !in Errors(f.(surveyTopic := TechnologyTopic, technologySection := TechnologySection(ws, ws)))
    ensures HealthSlot !in Errors(f.(surveyTopic := HealthTopic, healthSection := HealthSection(ws, ws)))
    ensures EducationSlot !in Errors(f.(surveyTopic := EducationTopic, educationSection := EducationSection(ws, "Physics")))
    ensures var g := f.(surveyTopic := EducationTopic, educationSection := EducationSection("PhD", ws));
      EducationSlot in Errors(g) && Errors(g)[EducationSlot] == FieldOfStudyRequired
  {
    var g := f.(surveyTopic := EducationTopic, educationSection := EducationSection(ws, "Physics"));
    assert !IsWs(g.educationSection.fieldOfStudy[0]);
    EducationRule(g);
    EducationRule(f.(surveyTopic := EducationTopic, educationSection := EducationSection("PhD", ws)));
  }

  /** A topic other than the three (and other than "") passes the topic check
      and runs no section check at all. */
  lemma UnknownTopicSkipsSections(f: FormData)
    requires f.surveyTopic !in {"", TechnologyTopic, HealthTopic, EducationTopic}
    ensures SurveyTopicSlot !in Errors(f)
    ensures TechnologySlot !in Errors(f) && HealthSlot !in Errors(f) && EducationSlot !in Errors(f)
  {
    SurveyTopicRule(f);
  }

  /** Sections other than the topic's never affect the outcome: records that
      agree on the active answers have the same errors, hence the same result. */
  lemma InactiveSectionsIgnored(f: FormData, g: FormData)
    requires SameActiveAnswers(f, g)
    ensures Errors(f) == Errors(g)
    ensures IsValid(f) == IsValid(g)
  {
    forall k
      ensures SlotAgrees(Errors(g), f, k)
    {
      ErrorsAt(g, k);
      match k
      case FullNameSlot =>
      case EmailSlot =>
      case SurveyTopicSlot =>
      case TechnologySlot =>
      case HealthSlot =>
      case EducationSlot =>
      case FeedbackSlot =>
    }
    SlotsAgree(Errors(g), f);
  }

  /** Feedback fails exactly when it is blank or its untrimmed length is below
      the minimum. */
  lemma FeedbackRule(f: FormData)
    ensures FeedbackSlot in Errors(f) <==> AllWs(f.feedback) || Utf16Length(f.feedback) < MinFeedbackLength
    ensures FeedbackSlot in Errors(f) ==> Errors(f)[FeedbackSlot] == FeedbackRequired
  {
    ErrorsAt(f, FeedbackSlot);
  }

  /** The length is taken before trimming: 49 spaces followed by "x" passes. */
  lemma PaddedFeedbackPasses(f: FormData)
    requires f.feedback == seq(49, _ => ' ') + "x"
    ensures FeedbackSlot !in Errors(f)
  {
    assert !IsWs(f.feedback[49]);
    FeedbackRule(f);
  }

  /** Any feedback of at least 50 characters, not all whitespace, passes; one
      of 49 characters from the Basic Multilingual Plane fails. */
  lemma FeedbackLengthBoundary(f: FormData)
    ensures |f.feedback| >= MinFeedbackLength && !AllWs(f.feedback) ==> FeedbackSlot !in Errors(f)
    ensures |f.feedback| == 49 && (forall i :: 0 <= i < 49 ==> f.feedback[i] as int < 0x1_0000) ==>
      FeedbackSlot in Errors(f)
  {
    FeedbackRule(f);
    if |f.feedback| == 49 && (forall i :: 0 <= i < 49 ==> f.feedback[i] as int < 0x1_0000) {
      Utf16LengthOfBmp(f.feedback);
    }
  }

  /** Submitting the untouched form reports the name, email, topic and
      feedback, and no section. */
  lemma InitialFormErrors()
    ensures Errors(InitialFormData()) == map[
      FullNameSlot := FullNameRequired, EmailSlot := EmailRequired,
      SurveyTopicSlot := SurveyTopicRequired, FeedbackSlot := FeedbackRequired]
  {
    var f := InitialFormData();
    ErrorsInCheckOrder(f);
    assert SlotError(f, FullNameSlot) == Some(FullNameRequired);
    assert SlotError(f, EmailSlot) == Some(EmailRequired);
    assert SlotError(f, SurveyTopicSlot) == Some(SurveyTopicRequired);
    assert SlotError(f, TechnologySlot) == None;
    assert SlotError(f, HealthSlot) == None;
    assert SlotError(f, EducationSlot) == None;
    assert SlotError(f, FeedbackSlot) == Some(FeedbackRequired);
  }
}

/** The SurveyForm component: its state (the answers, whether the summary is
    shown, the additional questions of the survey context and the validation
    hook), the two event handlers, and the summary shown after a successful
    submit. */
module SurveyForm {
  import opened JsText
  import opened SurveyData
  import opened FormValidation

  /** The label printed in bold before a leaf's value in the summary: it ends
      in its only colon. */
  function Label(l: Leaf): (r: string)
    ensures |r| >= 2 && r[|r| - 1] == ':'
  {
    match l
    case FullName => "Full Name:"
    case Email => "Email:"
    case SurveyTopic => "Survey Topic:"
    case Feedback => "Feedback:"
    case FavoriteLanguage => "Favorite Programming Language:"
    case YearsOfExperience => "Years of Experience:"
    case ExerciseFrequency => "Exercise Frequency:"
    case DietPreference => "Diet Preference:"
    case HighestQualification => "Highest Qualification:"
    case FieldOfStudy => "Field of Study:"
  }

  /** The leaf a label belongs to, if any. */
  function LabelLeaf(s: string): Option<Leaf>
  {
    if s == "Full Name:" then Some(FullName)
    else if s == "Email:" then Some(Email)
    else if s == "Survey Topic:" then Some(SurveyTopic)
    else if s == "Feedback:" then Some(Feedback)
    else if s == "Favorite Programming Language:" then Some(FavoriteLanguage)
    else if s == "Years of Experience:" then Some(YearsOfExperience)
    else if s == "Exercise Frequency:" then Some(ExerciseFrequency)
    else if s == "Diet Preference:" then Some(DietPreference)
    else if s == "Highest Qualification:" then Some(HighestQualification)
    else if s == "Field of Study:" then Some(FieldOfStudy)
    else None
  }

  /** Every label names its own leaf, so no two leaves share one. */
  lemma LabelNamesLeaf(l: Leaf)
    ensures LabelLeaf(Label(l)) == Some(l)
  {
    match l
    case FullName =>
    case Email =>
    case SurveyTopic =>
    case Feedback =>
    case FavoriteLanguage =>
    case YearsOfExperience =>
    case ExerciseFrequency =>
    case DietPreference =>
    case HighestQualification =>
    case FieldOfStudy =>
  }

  /** One line of the summary: a heading, a labelled answer, or one of the
      additional questions. */
  datatype SummaryItem =
    | Heading(text: string)
    | Entry(leaf: Leaf, value: string)
    | Question(text: string)
  {
    /** The line as displayed: an answer is its label, ending in a colon, then
        a space and the value; headings and questions are their own text. */
    function Text(): (r: string)
      ensures Entry? ==>
        (|r| == |Label(leaf)| + 1 + |value|
         && r[|Label(leaf)| - 1..|Label(leaf)| + 1] == ": " && r[|Label(leaf)| + 1..] == value)
      ensures !Entry? ==> r == text
    {
      match this
      case Heading(t) => t
      case Entry(l, v) => Label(l) + " " + v
      case Question(t) => t
    }
  }

  /** A displayed answer line gives back what it shows: it opens with the
      label that names its leaf, and the value follows the space. */
  lemma EntryTextDecodes(l: Leaf, v: string)
    ensures var t := Entry(l, v).Text();
      && LabelLeaf(t[..|Label(l)|]) == Some(l)
      && t[|Label(l)|] == ' ' && t[|Label(l)| + 1..] == v
  {
    var t := Entry(l, v).Text();
    assert t[..|Label(l)|] == Label(l);
    LabelNamesLeaf(l);
  }

  const SummaryTitle := "Summary"
  const QuestionsTitle := "Additional Questions:"

  /** Whether the summary has a line for leaf l when the topic is `topic`: the
      four top-level answers always, a section's two answers only when the
      topic is exactly that section's topic. */
  predicate Shown(topic: string, l: Leaf)
    ensures l.IsTopLevel() ==> Shown(topic, l)
    ensures Shown(topic, l) && !l.IsTopLevel() ==>
      topic == TechnologyTopic || topic == HealthTopic || topic == EducationTopic
  {
    match l
    case FavoriteLanguage | YearsOfExperience => topic == TechnologyTopic
    case ExerciseFrequency | DietPreference => topic == HealthTopic
    case HighestQualification | FieldOfStudy => topic == EducationTopic
    case _ => true
  }

  /** The answers of the section of f's topic, if it names one; for any other
      topic, including "", nothing. */
  function SectionEntries(f: FormData): (r: seq<SummaryItem>)
    ensures |r| == 0 || |r| == 2
    ensures |r| == 2 <==>
      f.surveyTopic == TechnologyTopic || f.surveyTopic == HealthTopic || f.surveyTopic == EducationTopic
    ensures |r| == 2 ==> r[0] != r[1] && r[0].Entry? && r[1].Entry? && r[0].leaf != r[1].leaf
    ensures forall i :: 0 <= i < |r| ==>
      r[i].Entry? && !r[i].leaf.IsTopLevel() && Shown(f.surveyTopic, r[i].leaf)
      && r[i].value == Read(f, r[i].leaf)
    ensures forall l: Leaf :: !l.IsTopLevel() ==> (Entry(l, Read(f, l)) in r <==> Shown(f.surveyTopic, l))
  {
    if f.surveyTopic == TechnologyTopic then
      [Entry(FavoriteLanguage, f.technologySection.favoriteLanguage),
       Entry(YearsOfExperience, f.technologySection.yearsOfExperience)]
    else if f.surveyTopic == HealthTopic then
      [Entry(ExerciseFrequency, f.healthSection.exerciseFrequency),
       Entry(DietPreference, f.healthSection.dietPreference)]
    else if f.surveyTopic == EducationTopic then
      [Entry(HighestQualification, f.educationSection.highestQualification),
       Entry(FieldOfStudy, f.educationSection.fieldOfStudy)]
    else []
  }

  /** The additional questions, one line each, in their order. */
  function QuestionItems(questions: seq<string>): (r: seq<SummaryItem>)
    ensures |r| == |questions|
    ensures forall i :: 0 <= i < |r| ==> r[i] == Question(questions[i])
  {
    seq(|questions|, i requires 0 <= i < |questions| => Question(questions[i]))
  }

  /** The lines of the summary block, top to bottom: the title, name, email and
      topic, the section of the topic, the feedback, the second heading and the
      questions. */
  function SummaryLines(f: FormData, questions: seq<string>): (r: seq<SummaryItem>)
    ensures |r| == 6 + |SectionEntries(f)| + |questions|
    ensures r[0] == Heading(SummaryTitle)
    ensures r[1] == Entry(FullName, f.fullName) && r[2] == Entry(Email, f.email)
    ensures r[3] == Entry(SurveyTopic, f.surveyTopic)
    ensures r[|r| - |questions| - 2] == Entry(Feedback, f.feedback)
    ensures r[|r| - |questions| - 1] == Heading(QuestionsTitle)
    ensures forall i :: 0 <= i < |questions| ==> r[|r| - |questions| + i] == Question(questions[i])
    ensures forall i :: 0 <= i < |r| - |questions| ==> !r[i].Question?
  {
    [Heading(SummaryTitle),
     Entry(FullName, f.fullName), Entry(Email, f.email), Entry(SurveyTopic, f.surveyTopic)]
    + SectionEntries(f)
    + [Entry(Feedback, f.feedback), Heading(QuestionsTitle)]
    + QuestionItems(questions)
  }

  /** The summary has a line for leaf l exactly when l is shown for f's topic,
      and that line carries l's current value. */
  lemma SummaryEntries(f: FormData, questions: seq<string>, l: Leaf, v: string)
    ensures Entry(l, v) in SummaryLines(f, questions) <==> Shown(f.surveyTopic, l) && v == Read(f, l)
  {
    var r := SummaryLines(f, questions);
    var s := SectionEntries(f);
    if Entry(l, v) in r {
      var i :| 0 <= i < |r| && r[i] == Entry(l, v);
      if 4 <= i < 4 + |s| {
        assert r[i] == s[i - 4];
      }
    }
    if Shown(f.surveyTopic, l) && v == Read(f, l) {
      var i := match l
        case FullName => 1
        case Email => 2
        case SurveyTopic => 3
        case Feedback => |r| - |questions| - 2
        case FavoriteLanguage | ExerciseFrequency | HighestQualification => 4
        case YearsOfExperience | DietPreference | FieldOfStudy => 5;
      assert r[i] == Entry(l, v);
    }
  }

  /** A section's answers are in the summary only when it is the section of the
      topic: every other section is absent, whatever it holds. */
  lemma SummaryHidesOtherSections(f: FormData, questions: seq<string>, l: Leaf, v: string)
    requires !Shown(f.surveyTopic, l)
    ensures Entry(l, v) !in SummaryLines(f, questions)
  {
    SummaryEntries(f, questions, l, v);
  }

  /** Answers the summary does not show cannot change it: two records that agree
      on the active answers have the same summary. */
  lemma SummaryIgnoresInactiveSections(f: FormData, g: FormData, questions: seq<string>)
    requires SameActiveAnswers(f, g)
    ensures SummaryLines(f, questions) == SummaryLines(g, questions)
  {
    assert SectionEntries(f) == SectionEntries(g);
  }

  /** The component's state. `validation` is the hook instance, whose `errors`
      the form shows next to each field group; `additionalQuestions` is the
      survey context's list. */
  class FormState {
    var formData: FormData
    var showSummary: bool
    var additionalQuestions: seq<string>
    const validation: ValidationHook

    /** The first render: every answer empty, the summary hidden, no
        additional questions and no errors. */
    constructor ()
      ensures formData == InitialFormData()
      ensures !showSummary && additionalQuestions == []
      ensures fresh(validation) && validation.errors == map[]
    {
      formData := InitialFormData();
      showSummary := false;
      additionalQuestions := [];
      validation := new ValidationHook();
    }

    /** `handleInputChange(section, field, value)`: the answers are replaced by
        their updated copy; nothing else changes, and validation does not run. */
    method HandleInputChange(section: string, field: string, value: string)
      requires ShapePreserving(section, field)
      modifies this
      ensures formData == UpdatedForm(old(formData), section, field, value)
      ensures showSummary == old(showSummary)
      ensures additionalQuestions == old(additionalQuestions)
      ensures unchanged(validation)
    {
      formData := UpdatedForm(formData, section, field, value);
    }

    /** `handleSubmit`: validates the current answers, which replaces the
        errors; the summary is switched on when they are valid and otherwise
        left as it was. */
    method HandleSubmit() returns (isValid: bool)
      modifies this`showSummary, validation
      ensures isValid == IsValid(formData)
      ensures validation.errors == Errors(formData)
      ensures showSummary == (old(showSummary) || isValid)
      ensures formData == old(formData) && additionalQuestions == old(additionalQuestions)
    {
      isValid := validation.ValidateForm(formData);
      if isValid {
        showSummary := true;
      }
    }

    /** The context's `setAdditionalQuestions`: the list is replaced wholesale. */
    method SetAdditionalQuestions(questions: seq<string>)
      modifies this`additionalQuestions
      ensures additionalQuestions == questions
      ensures formData == old(formData) && showSummary == old(showSummary)
    {
      additionalQuestions := questions;
    }

    /** What the component renders below the form: nothing until a submit has
        succeeded, the summary lines afterwards. */
    function Summary(): (r: seq<SummaryItem>)
      reads this
      ensures !showSummary ==> r == []
      ensures showSummary ==> |r| >= 6 + |additionalQuestions| && r[0] == Heading(SummaryTitle)
    {
      if showSummary then SummaryLines(formData, additionalQuestions) else []
    }
  }

  /** What the component shows and holds between events: the answers, whether
      the summary is on, the context's questions and the hook's errors. */
  datatype Screen = Screen(
    formData: FormData, showSummary: bool,
    questions: seq<string>, errors: map<Slot, ErrorMessage>)

  /** What reaches the component: a change in one input, a submit, or the
      context's questions being replaced. */
  datatype Event =
    | Edit(section: string, field: string, value: string)
    | Submit
    | QuestionsLoaded(questions: seq<string>)

  /** Every edit comes from one of the form's own inputs. */
  predicate FromInputs(events: seq<Event>)
  {
    forall i :: 0 <= i < |events| && events[i].Edit? ==>
      ShapePreserving(events[i].section, events[i].field)
  }

  /** The screen after one event, as the handlers leave it (see StepSpec). */
  function Step(s: Screen, e: Event): Screen
    requires e.Edit? ==> ShapePreserving(e.section, e.field)
  {
    match e
    case Edit(section, field, value) =>
      s.(formData := UpdatedForm(s.formData, section, field, value))
    case Submit =>
      s.(showSummary := s.showSummary || IsValid(s.formData), errors := Errors(s.formData))
    case QuestionsLoaded(q) => s.(questions := q)
  }

  /** Only a submit touches the errors and the summary flag; it never clears
      the flag and sets it only on valid answers. Edits touch only the
      answers, and the questions change only when the context replaces them. */
  lemma StepSpec(s: Screen, e: Event)
    requires e.Edit? ==> ShapePreserving(e.section, e.field)
    ensures var r := Step(s, e);
      && (s.showSummary ==> r.showSummary)
      && (r.showSummary ==> s.showSummary || (e.Submit? && IsValid(s.formData)))
      && (e.Submit? ==> r.formData == s.formData && r.errors == Errors(s.formData))
      && (!e.Submit? ==> r.showSummary == s.showSummary && r.errors == s.errors)
      && (!e.Edit? ==> r.formData == s.formData)
      && (e.Edit? ==> forall l :: Read(r.formData, l) ==
                        (if Lookup(e.section, e.field) == Some(l) then e.value else Read(s.formData, l)))
      && (!e.QuestionsLoaded? ==> r.questions == s.questions)
  {
  }

  /** The screen after the events, in order. */
  function Run(s: Screen, events: seq<Event>): Screen
    requires FromInputs(events)
    decreases |events|
  {
    if events == [] then s
    else
      var prefix := events[..|events| - 1];
      assert FromInputs(prefix) by {
        forall i | 0 <= i < |prefix| && prefix[i].Edit?
          ensures ShapePreserving(prefix[i].section, prefix[i].field)
        {
          assert prefix[i] == events[i];
        }
      }
      Step(Run(s, prefix), events[|events| - 1])
  }

  /** `events[..i]` comes from the inputs when events does. */
  lemma PrefixFromInputs(events: seq<Event>, i: nat)
    requires FromInputs(events) && i <= |events|
    ensures FromInputs(events[..i])
  {
    forall j | 0 <= j < i && events[..i][j].Edit?
      ensures ShapePreserving(events[..i][j].section, events[..i][j].field)
    {
      assert events[..i][j] == events[j];
    }
  }

  /** After any events the summary is shown exactly when it was shown before
      them or one of the submits among them found the answers of that moment
      valid: edits and failed submits never hide it. */
  lemma {:induction false} ShownIffSomeSubmitSucceeded(s: Screen, events: seq<Event>)
    requires FromInputs(events)
    ensures forall i :: 0 <= i <= |events| ==> FromInputs(events[..i])
    ensures Run(s, events).showSummary <==>
      s.showSummary ||
      exists i :: 0 <= i < |events| && events[i].Submit? && IsValid(Run(s, events[..i]).formData)
  {
    forall i | 0 <= i <= |events|
      ensures FromInputs(events[..i])
    {
      PrefixFromInputs(events, i);
    }
    if events != [] {
      var n := |events| - 1;
      var prefix := events[..n];
      PrefixFromInputs(events, n);
      ShownIffSomeSubmitSucceeded(s, prefix);
      forall i | 0 <= i <= n
        ensures prefix[..i] == events[..i]
      {
      }
      if Run(s, events).showSummary && !s.showSummary && !Run(s, prefix).showSummary {
        assert events[n].Submit? && IsValid(Run(s, events[..n]).formData);
      }
      if exists i :: 0 <= i < |events| && events[i].Submit? && IsValid(Run(s, events[..i]).formData) {
        var i :| 0 <= i < |events| && events[i].Submit? && IsValid(Run(s, events[..i]).formData);
        if i < n {
          assert prefix[i] == events[i];
        }
      }
    }
  }

  /** The component's screen. */
  function ScreenOf(form: FormState): Screen
    reads form, form.validation
  {
    Screen(form.formData, form.showSummary, form.additionalQuestions, form.validation.errors)
  }

  /** Running one more event is one more step. */
  lemma RunOneMore(s: Screen, events: seq<Event>, i: nat)
    requires FromInputs(events) && i < |events|
    ensures FromInputs(events[..i]) && FromInputs(events[..i + 1])
    ensures Run(s, events[..i + 1]) == Step(Run(s, events[..i]), events[i])
  {
    PrefixFromInputs(events, i);
    PrefixFromInputs(events, i + 1);
    assert events[..i + 1][..i] == events[..i];
  }

  /** Hands one event to the handler it belongs to. */
  method Deliver(form: FormState, e: Event)
    requires e.Edit? ==> ShapePreserving(e.section, e.field)
    modifies form, form.validation
    ensures ScreenOf(form) == Step(old(ScreenOf(form)), e)
  {
    match e {
      case Edit(section, field, value) =>
        form.HandleInputChange(section, field, value);
      case Submit =>
        var _ := form.HandleSubmit();
      case QuestionsLoaded(q) =>
        form.SetAdditionalQuestions(q);
    }
  }

  /** Delivers the events to the component one by one; its screen ends as Run
      says, and a summary that was shown stays shown. */
  method Replay(form: FormState, events: seq<Event>)
    requires FromInputs(events)
    modifies form, form.validation
    ensures ScreenOf(form) == Run(old(ScreenOf(form)), events)
    ensures old(form.showSummary) ==> form.showSummary
  {
    ghost var s0 := ScreenOf(form);
    var i := 0;
    while i < |events|
      invariant 0 <= i <= |events|
      invariant FromInputs(events[..i])
      invariant ScreenOf(form) == Run(s0, events[..i])
    {
      RunOneMore(s0, events, i);
      Deliver(form, events[i]);
      i := i + 1;
    }
    assert events[..i] == events;
    ShownIffSomeSubmitSucceeded(s0, events);
  }

  /** The answers of the end-to-end session: Ada Lovelace, Education, with a
      PhD in Mathematics. */
  function AdaLovelaceAnswers(feedback: string): FormData
  {
    FormData("Ada Lovelace", "ada@example.com", EducationTopic,
      TechnologySection("", ""), HealthSection("", ""),
      EducationSection("PhD", "Mathematics"), feedback)
  }

  /** Her address has the local@domain.tld shape, so it matches the pattern. */
  lemma AdaLovelaceEmailMatches()
    ensures EmailPattern("ada@example.com")
  {
    EmailShapeMatches("ada", "example", "com");
    assert "ada" + "@" + "example" + "." + "com" == "ada@example.com";
  }

  /** These answers pass every check once the feedback is long enough and not
      blank. */
  lemma AdaLovelaceAnswersValid(feedback: string)
    requires |feedback| >= MinFeedbackLength && !AllWs(feedback)
    ensures IsValid(AdaLovelaceAnswers(feedback))
  {
    var f := AdaLovelaceAnswers(feedback);
    assert !IsWs(f.fullName[0]) && !IsWs(f.email[0]) && !IsWs(f.educationSection.fieldOfStudy[0]);
    AdaLovelaceEmailMatches();
    FullNameRule(f);
    EmailRule(f);
    SurveyTopicRule(f);
    EducationRule(f);
    FeedbackRule(f);
    NoErrorsIffNoSlot(Errors(f));
  }

  /** Their summary: name, email, topic, the two Education answers and the
      feedback, then the questions. */
  lemma AdaLovelaceSummary(feedback: string, questions: seq<string>)
    ensures SummaryLines(AdaLovelaceAnswers(feedback), questions) ==
      [Heading(SummaryTitle),
       Entry(FullName, "Ada Lovelace"), Entry(Email, "ada@example.com"),
       Entry(SurveyTopic, EducationTopic),
       Entry(HighestQualification, "PhD"), Entry(FieldOfStudy, "Mathematics"),
       Entry(Feedback, feedback), Heading(QuestionsTitle)]
      + QuestionItems(questions)
  {
    var f := AdaLovelaceAnswers(feedback);
    assert SectionEntries(f) == [Entry(HighestQualification, "PhD"), Entry(FieldOfStudy, "Mathematics")];
  }

  /** A complete session: the fields are typed in, the context receives the
      questions, the form is submitted. The submit succeeds and the summary
      shows exactly these answers followed by the questions. */
  method AdaLovelaceSession(feedback: string, questions: seq<string>)
    returns (valid: bool, summary: seq<SummaryItem>)
    requires |feedback| >= MinFeedbackLength && !AllWs(feedback)
    ensures valid
    ensures summary ==
      [Heading(SummaryTitle),
       Entry(FullName, "Ada Lovelace"), Entry(Email, "ada@example.com"),
       Entry(SurveyTopic, EducationTopic),
       Entry(HighestQualification, "PhD"), Entry(FieldOfStudy, "Mathematics"),
       Entry(Feedback, feedback), Heading(QuestionsTitle)]
      + QuestionItems(questions)
  {
    var form := new FormState();
    form.HandleInputChange("", "fullName", "Ada Lovelace");
    form.HandleInputChange("", "email", "ada@example.com");
    form.HandleInputChange("", "surveyTopic", EducationTopic);
    form.HandleInputChange(EducationName, "highestQualification", "PhD");
    form.HandleInputChange(EducationName, "fieldOfStudy", "Mathematics");
    form.HandleInputChange("", "feedback", feedback);
    form.SetAdditionalQuestions(questions);
    assert form.formData == AdaLovelaceAnswers(feedback);
    AdaLovelaceAnswersValid(feedback);
    AdaLovelaceSummary(feedback, questions);
    valid := form.HandleSubmit();
    summary := form.Summary();
  }
}

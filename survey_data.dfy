/** The survey's answers (`formData` of the SurveyForm component) and the pure
    record update performed by `handleInputChange`. */
module SurveyData {

  datatype Option<T> = None | Some(value: T)

  datatype TechnologySection = TechnologySection(favoriteLanguage: string, yearsOfExperience: string)
  datatype HealthSection = HealthSection(exerciseFrequency: string, dietPreference: string)
  datatype EducationSection = EducationSection(highestQualification: string, fieldOfStudy: string)

  /** All answers of one respondent. `surveyTopic` is a plain string: the form
      offers "", "Technology", "Health" and "Education", but nothing in the code
      depends on it being one of them. Every section is kept whatever the topic. */
  datatype FormData = FormData(
    fullName: string,
    email: string,
    surveyTopic: string,
    technologySection: TechnologySection,
    healthSection: HealthSection,
    educationSection: EducationSection,
    feedback: string)

  const TechnologyTopic := "Technology"
  const HealthTopic := "Health"
  const EducationTopic := "Education"

  /** Property names of the nested section objects and of the top-level string
      properties of `formData`. */
  const TechnologyName := "technologySection"
  const HealthName := "healthSection"
  const EducationName := "educationSection"
  const SectionNames: set<string> := {TechnologyName, HealthName, EducationName}
  const TopLevelNames: set<string> := {"fullName", "email", "surveyTopic", "feedback"}

  /** The ten string leaves of a FormData record. */
  datatype Leaf =
    | FullName | Email | SurveyTopic | Feedback
    | FavoriteLanguage | YearsOfExperience
    | ExerciseFrequency | DietPreference
    | HighestQualification | FieldOfStudy
  {
    predicate IsTopLevel() { FullName? || Email? || SurveyTopic? || Feedback? }
  }

  function Read(f: FormData, l: Leaf): string
  {
    match l
    case FullName => f.fullName
    case Email => f.email
    case SurveyTopic => f.surveyTopic
    case Feedback => f.feedback
    case FavoriteLanguage => f.technologySection.favoriteLanguage
    case YearsOfExperience => f.technologySection.yearsOfExperience
    case ExerciseFrequency => f.healthSection.exerciseFrequency
    case DietPreference => f.healthSection.dietPreference
    case HighestQualification => f.educationSection.highestQualification
    case FieldOfStudy => f.educationSection.fieldOfStudy
  }

  /** The leaf addressed by the property path (section, field), where an empty
      section means a top-level property; None for a path naming no leaf. A
      non-empty section never addresses a top-level leaf and vice versa. */
  function Lookup(section: string, field: string): (r: Option<Leaf>)
    ensures r.Some? ==> (r.value.IsTopLevel() <==> section == "")
  {
    if section == "" then
      if field == "fullName" then Some(FullName)
      else if field == "email" then Some(Email)
      else if field == "surveyTopic" then Some(SurveyTopic)
      else if field == "feedback" then Some(Feedback)
      else None
    else if section == TechnologyName then
      if field == "favoriteLanguage" then Some(FavoriteLanguage)
      else if field == "yearsOfExperience" then Some(YearsOfExperience)
      else None
    else if section == HealthName then
      if field == "exerciseFrequency" then Some(ExerciseFrequency)
      else if field == "dietPreference" then Some(DietPreference)
      else None
    else if section == EducationName then
      if field == "highestQualification" then Some(HighestQualification)
      else if field == "fieldOfStudy" then Some(FieldOfStudy)
      else None
    else None
  }

  /** Two records with the same ten leaves are the same record. */
  lemma SameLeaves(f: FormData, g: FormData)
    requires forall l :: Read(f, l) == Read(g, l)
    ensures f == g
  {
    assert Read(f, FavoriteLanguage) == Read(g, FavoriteLanguage);
    assert Read(f, YearsOfExperience) == Read(g, YearsOfExperience);
    assert Read(f, ExerciseFrequency) == Read(g, ExerciseFrequency);
    assert Read(f, DietPreference) == Read(g, DietPreference);
    assert Read(f, HighestQualification) == Read(g, HighestQualification);
    assert Read(f, FieldOfStudy) == Read(g, FieldOfStudy);
    assert Read(f, FullName) == Read(g, FullName);
    assert Read(f, Email) == Read(g, Email);
    assert Read(f, SurveyTopic) == Read(g, SurveyTopic);
    assert Read(f, Feedback) == Read(g, Feedback);
  }

  /** The record the form starts from: every leaf, including the six section
      fields, is the empty string. */
  function InitialFormData(): (f: FormData)
    ensures forall l :: Read(f, l) == ""
  {
    FormData("", "", "",
      TechnologySection("", ""), HealthSection("", ""), EducationSection("", ""),
      "")
  }

  /** The paths for which `handleInputChange` keeps the record's shape: it would
      turn a section object into a string when a section name is given as a
      top-level field, and a string into an object when a top-level string
      property is given as a section. No input of the form does either. */
  predicate ShapePreserving(section: string, field: string)
  {
    (section == "" ==> field !in SectionNames) && section !in TopLevelNames
  }

  /** `handleInputChange(section, field, value)`: with a section, a copy of the
      record whose copy of that section has `field` set to value; without one, a
      copy with the top-level `field` set. A path that names no leaf adds a
      property that nothing reads, so every leaf keeps its value. */
  function UpdatedForm(f: FormData, section: string, field: string, value: string): (r: FormData)
    requires ShapePreserving(section, field)
    ensures forall l :: Read(r, l) == if Lookup(section, field) == Some(l) then value else Read(f, l)
  {
    if section != "" then
      if section == TechnologyName then
        var t := f.technologySection;
        f.(technologySection :=
          if field == "favoriteLanguage" then t.(favoriteLanguage := value)
          else if field == "yearsOfExperience" then t.(yearsOfExperience := value)
          else t)
      else if section == HealthName then
        var h := f.healthSection;
        f.(healthSection :=
          if field == "exerciseFrequency" then h.(exerciseFrequency := value)
          else if field == "dietPreference" then h.(dietPreference := value)
          else h)
      else if section == EducationName then
        var e := f.educationSection;
        f.(educationSection :=
          if field == "highestQualification" then e.(highestQualification := value)
          else if field == "fieldOfStudy" then e.(fieldOfStudy := value)
          else e)
      else f
    else
      if field == "fullName" then f.(fullName := value)
      else if field == "email" then f.(email := value)
      else if field == "surveyTopic" then f.(surveyTopic := value)
      else if field == "feedback" then f.(feedback := value)
      else f
  }

  /** Reading back the leaf just written gives the value written. */
  lemma UpdateReadBack(f: FormData, section: string, field: string, value: string, l: Leaf)
    requires ShapePreserving(section, field) && Lookup(section, field) == Some(l)
    ensures Read(UpdatedForm(f, section, field, value), l) == value
  {
  }

  /** Writing the same value to the same path twice is writing it once. */
  lemma UpdateIdempotent(f: FormData, section: string, field: string, value: string)
    requires ShapePreserving(section, field)
    ensures UpdatedForm(UpdatedForm(f, section, field, value), section, field, value)
         == UpdatedForm(f, section, field, value)
  {
    var once := UpdatedForm(f, section, field, value);
    SameLeaves(UpdatedForm(once, section, field, value), once);
  }

  /** An update with a section leaves every top-level property, both other
      sections and the sibling field of the same section as they were. */
  lemma SectionUpdateFrame(f: FormData, section: string, field: string, value: string)
    requires ShapePreserving(section, field) && section != ""
    ensures var r := UpdatedForm(f, section, field, value);
      && r.fullName == f.fullName && r.email == f.email
      && r.surveyTopic == f.surveyTopic && r.feedback == f.feedback
      && (section != TechnologyName ==> r.technologySection == f.technologySection)
      && (section != HealthName ==> r.healthSection == f.healthSection)
      && (section != EducationName ==> r.educationSection == f.educationSection)
      && (field != "favoriteLanguage" ==> r.technologySection.favoriteLanguage == f.technologySection.favoriteLanguage)
      && (field != "yearsOfExperience" ==> r.technologySection.yearsOfExperience == f.technologySection.yearsOfExperience)
      && (field != "exerciseFrequency" ==> r.healthSection.exerciseFrequency == f.healthSection.exerciseFrequency)
      && (field != "dietPreference" ==> r.healthSection.dietPreference == f.healthSection.dietPreference)
      && (field != "highestQualification" ==> r.educationSection.highestQualification == f.educationSection.highestQualification)
      && (field != "fieldOfStudy" ==> r.educationSection.fieldOfStudy == f.educationSection.fieldOfStudy)
  {
    var r := UpdatedForm(f, section, field, value);
    assert Read(r, FullName) == Read(f, FullName);
    assert Read(r, Email) == Read(f, Email);
    assert Read(r, SurveyTopic) == Read(f, SurveyTopic);
    assert Read(r, Feedback) == Read(f, Feedback);
    if section != TechnologyName {
      assert Read(r, FavoriteLanguage) == Read(f, FavoriteLanguage);
      assert Read(r, YearsOfExperience) == Read(f, YearsOfExperience);
    }
    if section != HealthName {
      assert Read(r, ExerciseFrequency) == Read(f, ExerciseFrequency);
      assert Read(r, DietPreference) == Read(f, DietPreference);
    }
    if section != EducationName {
      assert Read(r, HighestQualification) == Read(f, HighestQualification);
      assert Read(r, FieldOfStudy) == Read(f, FieldOfStudy);
    }
  }

  /** An update without a section leaves all three sections as they were. */
  lemma TopLevelUpdateFrame(f: FormData, field: string, value: string)
    requires ShapePreserving("", field)
    ensures var r := UpdatedForm(f, "", field, value);
      && r.technologySection == f.technologySection
      && r.healthSection == f.healthSection
      && r.educationSection == f.educationSection
  {
    var r := UpdatedForm(f, "", field, value);
    assert Read(r, FavoriteLanguage) == Read(f, FavoriteLanguage);
    assert Read(r, YearsOfExperience) == Read(f, YearsOfExperience);
    assert Read(r, ExerciseFrequency) == Read(f, ExerciseFrequency);
    assert Read(r, DietPreference) == Read(f, DietPreference);
    assert Read(r, HighestQualification) == Read(f, HighestQualification);
    assert Read(r, FieldOfStudy) == Read(f, FieldOfStudy);
  }

  /** f and g hold the same answers in every part the code looks at for f's
      topic: the four top-level properties and the section of that topic. The
      other sections may differ. */
  predicate SameActiveAnswers(f: FormData, g: FormData)
  {
    && f.fullName == g.fullName && f.email == g.email
    && f.surveyTopic == g.surveyTopic && f.feedback == g.feedback
    && (f.surveyTopic == TechnologyTopic ==> f.technologySection == g.technologySection)
    && (f.surveyTopic == HealthTopic ==> f.healthSection == g.healthSection)
    && (f.surveyTopic == EducationTopic ==> f.educationSection == g.educationSection)
  }
}

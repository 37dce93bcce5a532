/**
 * The CV builder's data and its edits. Every edit is a functional update of
 * `CVData`: add appends a blank entry, update rewrites one field of the entries
 * with a given id, remove filters those entries out. Ids come from the clock in
 * the page, so here they are inputs, and two entries may share an id.
 */
module CvBuilder {

  datatype Education = Education(
    id: string, institution: string, degree: string, field: string,
    startYear: string, endYear: string, description: string)

  datatype Experience = Experience(
    id: string, company: string, position: string, startDate: string,
    endDate: string, current: bool, description: string)

  datatype Skill = Skill(id: string, name: string, level: string)

  datatype CvData = CvData(
    aboutMe: string, professionalTitle: string,
    education: seq<Education>, experience: seq<Experience>, skills: seq<Skill>)

  /** The CV the builder starts from. */
  function InitialCv(): (cv: CvData)
    ensures cv.aboutMe == "" && cv.professionalTitle == ""
    ensures cv.education == [] && cv.experience == [] && cv.skills == []
  {
    CvData("", "", [], [], [])
  }

  // ---------------------------------------------------------------------------
  // Id-keyed list operations, shared by the three lists
  // ---------------------------------------------------------------------------

  /** `list.map(x => x.id === id ? change(x) : x)`. */
  function UpdateById<T>(xs: seq<T>, idOf: T -> string, id: string, change: T -> T): (r: seq<T>)
    ensures |r| == |xs|
    ensures forall k :: 0 <= k < |xs| ==> r[k] == if idOf(xs[k]) == id then change(xs[k]) else xs[k]
  {
    if xs == [] then []
    else [if idOf(xs[0]) == id then change(xs[0]) else xs[0]] + UpdateById(xs[1..], idOf, id, change)
  }

  /** `list.filter(x => x.id !== id)`: keeps exactly the entries with another id. */
  function RemoveById<T>(xs: seq<T>, idOf: T -> string, id: string): (r: seq<T>)
    ensures |r| <= |xs|
    ensures forall k :: 0 <= k < |r| ==> idOf(r[k]) != id && r[k] in xs
    ensures forall k :: 0 <= k < |xs| && idOf(xs[k]) != id ==> xs[k] in r
  {
    if xs == [] then []
    else if idOf(xs[0]) == id then RemoveById(xs[1..], idOf, id)
    else [xs[0]] + RemoveById(xs[1..], idOf, id)
  }

  predicate HasId<T>(xs: seq<T>, idOf: T -> string, id: string) {
    exists k | 0 <= k < |xs| :: idOf(xs[k]) == id
  }

  /** Removing an id no entry has changes nothing. */
  lemma {:induction false} RemoveMissingId<T>(xs: seq<T>, idOf: T -> string, id: string)
    requires !HasId(xs, idOf, id)
    ensures RemoveById(xs, idOf, id) == xs
  {
    if xs != [] {
      assert idOf(xs[0]) != id;
      assert !HasId(xs[1..], idOf, id) by {
        forall k | 0 <= k < |xs[1..]| ensures idOf(xs[1..][k]) != id {
          assert xs[1..][k] == xs[k + 1];
        }
      }
      RemoveMissingId(xs[1..], idOf, id);
    }
  }

  /** Filtering distributes over concatenation, so the kept entries stay in their
      original relative order. */
  lemma {:induction false} RemoveByIdAppend<T>(xs: seq<T>, ys: seq<T>, idOf: T -> string, id: string)
    ensures RemoveById(xs + ys, idOf, id) == RemoveById(xs, idOf, id) + RemoveById(ys, idOf, id)
  {
    if xs == [] {
      assert xs + ys == ys;
    } else {
      assert (xs + ys)[0] == xs[0];
      assert (xs + ys)[1..] == xs[1..] + ys;
      RemoveByIdAppend(xs[1..], ys, idOf, id);
    }
  }

  /** Removing all entries with an id removes the just-appended entry and nothing
      else when no older entry has that id. */
  lemma RemoveAppended<T>(xs: seq<T>, x: T, idOf: T -> string)
    requires !HasId(xs, idOf, idOf(x))
    ensures RemoveById(xs + [x], idOf, idOf(x)) == xs
  {
    RemoveByIdAppend(xs, [x], idOf, idOf(x));
    RemoveMissingId(xs, idOf, idOf(x));
    assert RemoveById([x], idOf, idOf(x)) == [];
  }

  /** An update whose id no entry has changes nothing. */
  lemma UpdateMissingId<T>(xs: seq<T>, idOf: T -> string, id: string, change: T -> T)
    requires !HasId(xs, idOf, id)
    ensures UpdateById(xs, idOf, id, change) == xs
  {
    var r := UpdateById(xs, idOf, id, change);
    forall k | 0 <= k < |xs| ensures r[k] == xs[k] {
      assert idOf(xs[k]) != id;
    }
  }

  // ---------------------------------------------------------------------------
  // Entries and their fields
  // ---------------------------------------------------------------------------

  /** The editable text fields of an education entry (`keyof EducationEntry` as the form uses it). */
  datatype EducationField = Institution | Degree | FieldOfStudy | StartYear | EndYear | EducationDescription

  function EducationText(e: Education, f: EducationField): string {
    match f
    case Institution => e.institution
    case Degree => e.degree
    case FieldOfStudy => e.field
    case StartYear => e.startYear
    case EndYear => e.endYear
    case EducationDescription => e.description
  }

  /** `{ ...edu, [field]: value }`: the named field reads back as `value`, the id and
      every other field are kept. */
  function WithEducationText(e: Education, f: EducationField, value: string): (r: Education)
    ensures r.id == e.id
    ensures EducationText(r, f) == value
    ensures forall g :: g != f ==> EducationText(r, g) == EducationText(e, g)
  {
    match f
    case Institution => e.(institution := value)
    case Degree => e.(degree := value)
    case FieldOfStudy => e.(field := value)
    case StartYear => e.(startYear := value)
    case EndYear => e.(endYear := value)
    case EducationDescription => e.(description := value)
  }

  /** The editable fields of an experience entry: five texts and the `current` flag. */
  datatype ExperienceField = Company | Position | StartDate | EndDate | ExperienceDescription

  function ExperienceText(e: Experience, f: ExperienceField): string {
    match f
    case Company => e.company
    case Position => e.position
    case StartDate => e.startDate
    case EndDate => e.endDate
    case ExperienceDescription => e.description
  }

  /** A value for `updateExperience`, which takes `string | boolean`. */
  datatype ExperienceEdit = SetText(field: ExperienceField, value: string) | SetCurrent(checked: bool)

  function WithExperienceEdit(e: Experience, edit: ExperienceEdit): (r: Experience)
    ensures r.id == e.id
    ensures edit.SetText? ==>
              && ExperienceText(r, edit.field) == edit.value && r.current == e.current
              && forall g :: g != edit.field ==> ExperienceText(r, g) == ExperienceText(e, g)
    ensures edit.SetCurrent? ==>
              r.current == edit.checked && forall g :: ExperienceText(r, g) == ExperienceText(e, g)
  {
    match edit
    case SetCurrent(checked) => e.(current := checked)
    case SetText(f, value) =>
      match f
      case Company => e.(company := value)
      case Position => e.(position := value)
      case StartDate => e.(startDate := value)
      case EndDate => e.(endDate := value)
      case ExperienceDescription => e.(description := value)
  }

  /** The two fields of a skill the form edits. */
  datatype SkillField = SkillName | SkillLevel

  function SkillText(s: Skill, f: SkillField): string {
    match f
    case SkillName => s.name
    case SkillLevel => s.level
  }

  function WithSkillText(s: Skill, f: SkillField, value: string): (r: Skill)
    ensures r.id == s.id
    ensures SkillText(r, f) == value
    ensures forall g :: g != f ==> SkillText(r, g) == SkillText(s, g)
  {
    match f
    case SkillName => s.(name := value)
    case SkillLevel => s.(level := value)
  }

  function EducationId(e: Education): string { e.id }
  function ExperienceId(e: Experience): string { e.id }
  function SkillId(s: Skill): string { s.id }

  /** The skill levels offered by the level selector, lowest first. */
  const SkillLevels: seq<string> := ["Beginner", "Intermediate", "Advanced", "Expert"]

  // ---------------------------------------------------------------------------
  // The page's edits
  // ---------------------------------------------------------------------------

  /** `addEducation`: one blank entry with the given id at the end; nothing else changes. */
  function AddEducation(cv: CvData, id: string): (r: CvData)
    ensures |r.education| == |cv.education| + 1 && r.education[..|cv.education|] == cv.education
    ensures var e := r.education[|cv.education|];
              e.id == id && forall f :: EducationText(e, f) == ""
    ensures r == cv.(education := r.education)
  {
    cv.(education := cv.education + [Education(id, "", "", "", "", "", "")])
  }

  /** `updateEducation`: the named field of every entry with that id is set. */
  function UpdateEducation(cv: CvData, id: string, f: EducationField, value: string): (r: CvData)
    ensures |r.education| == |cv.education|
    ensures forall k :: 0 <= k < |cv.education| ==>
              r.education[k] == if cv.education[k].id == id then WithEducationText(cv.education[k], f, value)
                                else cv.education[k]
    ensures r == cv.(education := r.education)
  {
    cv.(education := UpdateById(cv.education, EducationId, id, e => WithEducationText(e, f, value)))
  }

  /** `removeEducation`: every entry with that id is dropped. */
  function RemoveEducation(cv: CvData, id: string): (r: CvData)
    ensures r.education == RemoveById(cv.education, EducationId, id)
    ensures r == cv.(education := r.education)
  {
    cv.(education := RemoveById(cv.education, EducationId, id))
  }

  /** `addExperience`: one blank, not-current entry with the given id at the end. */
  function AddExperience(cv: CvData, id: string): (r: CvData)
    ensures |r.experience| == |cv.experience| + 1 && r.experience[..|cv.experience|] == cv.experience
    ensures var e := r.experience[|cv.experience|];
              e.id == id && !e.current && forall f :: ExperienceText(e, f) == ""
    ensures r == cv.(experience := r.experience)
  {
    cv.(experience := cv.experience + [Experience(id, "", "", "", "", false, "")])
  }

  /** `updateExperience`: the edit is applied to every entry with that id. */
  function UpdateExperience(cv: CvData, id: string, edit: ExperienceEdit): (r: CvData)
    ensures |r.experience| == |cv.experience|
    ensures forall k :: 0 <= k < |cv.experience| ==>
              r.experience[k] == if cv.experience[k].id == id then WithExperienceEdit(cv.experience[k], edit)
                                 else cv.experience[k]
    ensures r == cv.(experience := r.experience)
  {
    cv.(experience := UpdateById(cv.experience, ExperienceId, id, e => WithExperienceEdit(e, edit)))
  }

  /** `removeExperience`: every entry with that id is dropped. */
  function RemoveExperience(cv: CvData, id: string): (r: CvData)
    ensures r.experience == RemoveById(cv.experience, ExperienceId, id)
    ensures r == cv.(experience := r.experience)
  {
    cv.(experience := RemoveById(cv.experience, ExperienceId, id))
  }

  /** The "Current" checkbox: sets `current`, and when ticked also clears `endDate`
      (two functional updates applied in order). */
  function ToggleCurrent(cv: CvData, id: string, checked: bool): (r: CvData)
    ensures |r.experience| == |cv.experience|
    ensures forall k :: 0 <= k < |cv.experience| && cv.experience[k].id != id ==>
              r.experience[k] == cv.experience[k]
    ensures forall k :: 0 <= k < |cv.experience| && cv.experience[k].id == id ==>
              var e, n := cv.experience[k], r.experience[k];
              && n.id == e.id && n.current == checked
              && n.endDate == (if checked then "" else e.endDate)
              && forall g :: g != EndDate ==> ExperienceText(n, g) == ExperienceText(e, g)
    ensures r == cv.(experience := r.experience)
  {
    var marked := UpdateExperience(cv, id, SetCurrent(checked));
    if checked then UpdateExperience(marked, id, SetText(EndDate, "")) else marked
  }

  /** `addSkill`: one unnamed `Beginner` skill with the given id at the end. */
  function AddSkill(cv: CvData, id: string): (r: CvData)
    ensures |r.skills| == |cv.skills| + 1 && r.skills[..|cv.skills|] == cv.skills
    ensures r.skills[|cv.skills|] == Skill(id, "", SkillLevels[0])
    ensures r == cv.(skills := r.skills)
  {
    cv.(skills := cv.skills + [Skill(id, "", "Beginner")])
  }

  /** `updateSkill`: the named field of every skill with that id is set. */
  function UpdateSkill(cv: CvData, id: string, f: SkillField, value: string): (r: CvData)
    ensures |r.skills| == |cv.skills|
    ensures forall k :: 0 <= k < |cv.skills| ==>
              r.skills[k] == if cv.skills[k].id == id then WithSkillText(cv.skills[k], f, value)
                             else cv.skills[k]
    ensures r == cv.(skills := r.skills)
  {
    cv.(skills := UpdateById(cv.skills, SkillId, id, s => WithSkillText(s, f, value)))
  }

  /** `removeSkill`: every skill with that id is dropped. */
  function RemoveSkill(cv: CvData, id: string): (r: CvData)
    ensures r.skills == RemoveById(cv.skills, SkillId, id)
    ensures r == cv.(skills := r.skills)
  {
    cv.(skills := RemoveById(cv.skills, SkillId, id))
  }

  /** The "About Me" textarea. */
  function SetAboutMe(cv: CvData, text: string): (r: CvData)
    ensures r.aboutMe == text && r == cv.(aboutMe := text)
  {
    cv.(aboutMe := text)
  }

  /** The "Professional Title" input. */
  function SetProfessionalTitle(cv: CvData, text: string): (r: CvData)
    ensures r.professionalTitle == text && r == cv.(professionalTitle := text)
  {
    cv.(professionalTitle := text)
  }

  // ---------------------------------------------------------------------------
  // Properties of the edits
  // ---------------------------------------------------------------------------

  /** Removing an entry right after adding it under a fresh id restores the CV. */
  lemma AddThenRemoveEducation(cv: CvData, id: string)
    requires !HasId(cv.education, EducationId, id)
    ensures RemoveEducation(AddEducation(cv, id), id) == cv
  {
    RemoveAppended(cv.education, Education(id, "", "", "", "", "", ""), EducationId);
  }

  lemma AddThenRemoveExperience(cv: CvData, id: string)
    requires !HasId(cv.experience, ExperienceId, id)
    ensures RemoveExperience(AddExperience(cv, id), id) == cv
  {
    RemoveAppended(cv.experience, Experience(id, "", "", "", "", false, ""), ExperienceId);
  }

  lemma AddThenRemoveSkill(cv: CvData, id: string)
    requires !HasId(cv.skills, SkillId, id)
    ensures RemoveSkill(AddSkill(cv, id), id) == cv
  {
    RemoveAppended(cv.skills, Skill(id, "", "Beginner"), SkillId);
  }

  /** Removing a missing id is a no-op, and removing twice is removing once. */
  lemma RemoveEducationIdempotent(cv: CvData, id: string)
    ensures RemoveEducation(RemoveEducation(cv, id), id) == RemoveEducation(cv, id)
    ensures !HasId(cv.education, EducationId, id) ==> RemoveEducation(cv, id) == cv
  {
    var once := RemoveEducation(cv, id).education;
    assert !HasId(once, EducationId, id);
    RemoveMissingId(once, EducationId, id);
    if !HasId(cv.education, EducationId, id) {
      RemoveMissingId(cv.education, EducationId, id);
    }
  }

  /** Updating an id no education entry has changes nothing. */
  lemma UpdateEducationMissingId(cv: CvData, id: string, f: EducationField, value: string)
    requires !HasId(cv.education, EducationId, id)
    ensures UpdateEducation(cv, id, f, value) == cv
  {
    UpdateMissingId(cv.education, EducationId, id, e => WithEducationText(e, f, value));
  }

  /** Edits of different fields of the same entries commute. */
  lemma UpdateEducationCommutes(cv: CvData, id: string, f: EducationField, v: string, g: EducationField, w: string)
    requires f != g
    ensures UpdateEducation(UpdateEducation(cv, id, f, v), id, g, w)
         == UpdateEducation(UpdateEducation(cv, id, g, w), id, f, v)
  {
    var a := UpdateEducation(UpdateEducation(cv, id, f, v), id, g, w).education;
    var b := UpdateEducation(UpdateEducation(cv, id, g, w), id, f, v).education;
    forall k | 0 <= k < |cv.education| ensures a[k] == b[k] {
      var e := cv.education[k];
      if e.id == id {
        var x, y := WithEducationText(WithEducationText(e, f, v), g, w), WithEducationText(WithEducationText(e, g, w), f, v);
      }
    }
  }

  /** Unticking "current" after ticking it leaves the entry not current with an empty
      end date: the cleared end date does not come back. */
  lemma TickThenUntick(cv: CvData, id: string)
    ensures var r := ToggleCurrent(ToggleCurrent(cv, id, true), id, false);
              forall k :: 0 <= k < |cv.experience| && cv.experience[k].id == id ==>
                !r.experience[k].current && r.experience[k].endDate == ""
  {
  }
}

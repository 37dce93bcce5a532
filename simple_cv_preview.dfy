/**
 * The single-template CV preview: the empty-CV placeholder, or a header with the
 * professional title and the body sections About, Education, Experience and Skills,
 * each written only when its field or list is non-empty.
 */
module SimpleCvPreview {
  import opened Wrappers
  import opened CvBuilder
  import opened CvPreview

  /** The four conditional body blocks in the order the component writes them. */
  function Body(cv: CvData): (ss: seq<Section>)
    ensures |ss| <= 4
    ensures forall i :: 0 <= i < |ss| ==> Present(cv, KindOf(ss[i])) && ss[i] == SectionFor(cv, KindOf(ss[i]), Modern)
  {
    Block(cv, AboutKind, Modern) + Block(cv, EducationKind, Modern)
    + Block(cv, ExperienceKind, Modern) + Block(cv, SkillsKind, Modern)
  }

  function Render(cv: CvData): (p: Preview)
    ensures p.Placeholder? <==> cv == InitialCv()
    ensures p.Document? ==> p.title == OrPlaceholder(cv.professionalTitle, "Professional Title")
  {
    if !HasAnyData(cv) then Placeholder
    else Document(Modern, OrPlaceholder(cv.professionalTitle, "Professional Title"), Body(cv))
  }

  /** This preview is the templated preview with its default (modern) template. */
  lemma RenderIsDefaultTemplate(cv: CvData)
    ensures Render(cv) == CvPreview.Render(cv, None)
  {
    BodyIsModernSections(cv);
  }

  lemma BodyIsModernSections(cv: CvData)
    ensures Body(cv) == Sections(cv, Modern)
  {
    var order := LayoutOrder(Modern);
    var a, e, x, s := Block(cv, order[0], Modern), Block(cv, order[1], Modern),
                      Block(cv, order[2], Modern), Block(cv, order[3], Modern);
    assert order[1..][1..][1..][1..] == [];
    calc {
      SectionsIn(cv, order, Modern);
      a + SectionsIn(cv, order[1..], Modern);
      a + (e + SectionsIn(cv, order[1..][1..], Modern));
      a + (e + (x + SectionsIn(cv, order[1..][1..][1..], Modern)));
      a + (e + (x + s));
    }
  }

  /** Each section is shown exactly when its field or list is non-empty, in the
      order About, Education, Experience, Skills. */
  lemma SectionVisibility(cv: CvData)
    requires cv != InitialCv()
    ensures var ks := Kinds(Render(cv).sections);
              && (forall kind :: kind in ks <==> Present(cv, kind))
              && InLayoutOrder(Modern, ks)
  {
    RenderIsDefaultTemplate(cv);
    SectionsShownInOrder(cv, Modern);
  }

  /** The entry-level rules of this preview: years shown as "s - e", "s - Present" or
      nothing; job dates as "s - Present" when current, "s - e" with an end date, else
      the start alone; at most four dots, the first `indexOf(level) + 1` filled; and
      the Degree / Institution / Position / Company / Skill placeholders. */
  lemma EntryRules(e: Education, x: Experience, s: Skill)
    ensures var r := EducationViewOf(e).range;
              && (e.startYear != "" && e.endYear != "" ==> r == e.startYear + " - " + e.endYear)
              && (e.startYear != "" && e.endYear == "" ==> r == e.startYear + " - Present")
              && (e.startYear == "" ==> r == "")
    ensures var r := ExperienceViewOf(x).range;
              && (x.startDate != "" && x.current ==> r == x.startDate + " - Present")
              && (x.startDate != "" && !x.current && x.endDate != "" ==> r == x.startDate + " - " + x.endDate)
              && (!x.current && x.endDate == "" ==> r == x.startDate)
              && (x.startDate == "" ==> r == "")
    ensures var v := SkillViewOf(s, Modern);
              && v.SkillDots? && |v.dots| == 4
              && forall i :: 0 <= i < 4 ==> (v.dots[i] <==> i < IndexOf(SkillLevels, s.level) + 1)
    ensures EducationViewOf(e).institution == OrPlaceholder(e.institution, "Institution")
    ensures EducationViewOf(e).heading[..|OrPlaceholder(e.degree, "Degree")|] == OrPlaceholder(e.degree, "Degree")
    ensures ExperienceViewOf(x).position == OrPlaceholder(x.position, "Position")
    ensures ExperienceViewOf(x).company == OrPlaceholder(x.company, "Company")
    ensures SkillViewOf(s, Modern).name == OrPlaceholder(s.name, "Skill")
  {
  }
}

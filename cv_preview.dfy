/**
 * The CV preview with a choice of template: what is derived from `CVData` for
 * display (placeholders, date ranges, skill dots and bars), which sections are
 * shown, in which order, and when the empty-CV placeholder replaces the CV.
 */
module CvPreview {
  import opened Wrappers
  import opened CvBuilder

  /** `cvData.aboutMe || cvData.professionalTitle || <any list non-empty>`. */
  function HasAnyData(cv: CvData): (b: bool)
    ensures b <==> cv != InitialCv()
  {
    cv.aboutMe != "" || cv.professionalTitle != ""
    || |cv.education| > 0 || |cv.experience| > 0 || |cv.skills| > 0
  }

  /** `s || placeholder`: an empty field shows its placeholder, any other is shown as is. */
  function OrPlaceholder(s: string, placeholder: string): (r: string)
    ensures s != "" ==> r == s
    ensures s == "" ==> r == placeholder
  {
    if s != "" then s else placeholder
  }

  /** `s && <element>`: an optional paragraph, present only for a non-empty text. */
  function Optional(s: string): (r: Option<string>)
    ensures r.Some? <==> s != ""
    ensures r.Some? ==> r.value == s
  {
    if s != "" then Some(s) else None
  }

  // ---------------------------------------------------------------------------
  // Date ranges
  // ---------------------------------------------------------------------------

  /** The education years: "start - end", "start - Present" when only the start is
      known, and nothing without a start year (an end year alone is not shown). */
  function EducationRange(startYear: string, endYear: string): (r: string)
    ensures r == "" <==> startYear == ""
    ensures startYear != "" && endYear != "" ==> r == startYear + " - " + endYear
    ensures startYear != "" && endYear == "" ==> r == startYear + " - Present"
  {
    if startYear != "" && endYear != "" then startYear + " - " + endYear
    else if startYear != "" then startYear + " - Present"
    else ""
  }

  /** The experience dates: with a start date and either an end date or the current
      flag, "start - Present" when current and "start - end" otherwise; else the start
      date alone, or nothing. */
  function ExperienceRange(startDate: string, endDate: string, current: bool): (r: string)
    ensures r == "" <==> startDate == ""
    ensures startDate != "" && current ==> r == startDate + " - Present"
    ensures startDate != "" && !current && endDate != "" ==> r == startDate + " - " + endDate
    ensures !current && endDate == "" ==> r == startDate
  {
    if startDate != "" && (endDate != "" || current) then
      startDate + " - " + (if current then "Present" else endDate)
    else if startDate != "" then startDate
    else ""
  }

  /** Both ranges begin with the start, and a current job ignores a stale end date. */
  lemma RangesBeginWithStart(start: string, end: string, stale: string, current: bool)
    ensures EducationRange(start, end)[..|start|] == start
    ensures ExperienceRange(start, end, current)[..|start|] == start
    ensures ExperienceRange(start, end, true) == ExperienceRange(start, stale, true)
  {
  }

  /** The two ranges differ exactly on an open-ended entry: an education entry without
      an end year reads "start - Present", an experience without end date and not
      current shows only its start. */
  lemma OpenEndedRanges(start: string)
    requires start != ""
    ensures EducationRange(start, "") == ExperienceRange(start, "", true)
    ensures ExperienceRange(start, "", false) == start
  {
  }

  // ---------------------------------------------------------------------------
  // Skill levels
  // ---------------------------------------------------------------------------

  /** `xs.indexOf(x)`: the first position of `x`, or -1. */
  function IndexOf(xs: seq<string>, x: string): (i: int)
    ensures -1 <= i < |xs|
    ensures i == -1 <==> x !in xs
    ensures i >= 0 ==> xs[i] == x && x !in xs[..i]
  {
    if xs == [] then -1
    else if xs[0] == x then 0
    else
      var j := IndexOf(xs[1..], x);
      assert xs[1..][..j + 1] == xs[1..j + 2] by { }
      if j == -1 then -1 else j + 1
  }

  /** The number of highlighted dots of a skill: 1..4 for the four offered levels in
      order, 0 for any other text. */
  function FilledDots(level: string): (n: nat)
    ensures n <= 4
    ensures n == 0 <==> level !in SkillLevels
    ensures n > 0 ==> SkillLevels[n - 1] == level
  {
    IndexOf(SkillLevels, level) + 1
  }

  /** `[...Array(4)].map((_, i) => i < filled)`: four dots, the filled ones first. */
  function Dots(level: string): (d: seq<bool>)
    ensures |d| == 4
    ensures forall i :: 0 <= i < 4 ==> (d[i] <==> i < FilledDots(level))
  {
    seq(4, i => i < FilledDots(level))
  }

  /** The classic template's bar: `(indexOf(level) + 1) * 25` percent. */
  function BarWidth(level: string): (w: nat)
    ensures w in {0, 25, 50, 75, 100}
    ensures w == 25 * FilledDots(level)
  {
    (IndexOf(SkillLevels, level) + 1) * 25
  }

  /** Each offered level fills one more dot than the one below it, starting at one. */
  lemma LevelsFillDots()
    ensures forall k :: 0 <= k < |SkillLevels| ==> FilledDots(SkillLevels[k]) == k + 1
  {
    forall k | 0 <= k < |SkillLevels| ensures FilledDots(SkillLevels[k]) == k + 1 {
      var n := FilledDots(SkillLevels[k]);
      assert SkillLevels[n - 1] == SkillLevels[k];
      assert n - 1 == k;
    }
  }

  /** The number of filled dots. */
  function CountFilled(d: seq<bool>): nat {
    if d == [] then 0 else (if d[0] then 1 else 0) + CountFilled(d[1..])
  }

  /** A row of dots whose first `n` are the filled ones has `n` filled dots. */
  lemma {:induction false} CountFilledPrefix(d: seq<bool>, n: nat)
    requires n <= |d|
    requires forall i :: 0 <= i < |d| ==> (d[i] <==> i < n)
    ensures CountFilled(d) == n
  {
    if d != [] {
      assert forall i :: 0 <= i < |d[1..]| ==> (d[1..][i] <==> i < n - 1) by {
        forall i | 0 <= i < |d[1..]| ensures d[1..][i] <==> i < n - 1 { assert d[1..][i] == d[i + 1]; }
      }
      CountFilledPrefix(d[1..], if n == 0 then 0 else n - 1);
    }
  }

  /** Filled dots come before empty ones, and the bar is as full as the dots. */
  lemma DotsAreAPrefix(level: string)
    ensures forall i, j :: 0 <= i < j < 4 && Dots(level)[j] ==> Dots(level)[i]
    ensures BarWidth(level) == 25 * CountFilled(Dots(level))
  {
    CountFilledPrefix(Dots(level), FilledDots(level));
  }

  // ---------------------------------------------------------------------------
  // Entry views
  // ---------------------------------------------------------------------------

  datatype EducationView = EducationView(heading: string, range: string, institution: string, description: Option<string>)
  datatype ExperienceView = ExperienceView(position: string, company: string, range: string, description: Option<string>)
  /** The modern template shows a skill's dots; the classic one its level and a bar. */
  datatype SkillView =
    | SkillDots(name: string, dots: seq<bool>)
    | SkillBar(name: string, level: string, width: nat)

  /** `{degree || 'Degree'} {field && `in ${field}`}`. */
  function DegreeHeading(degree: string, field: string): (h: string)
    ensures var d := OrPlaceholder(degree, "Degree");
              && |h| > |d| && h[..|d| + 1] == d + " "
              && (field == "" ==> h == d + " ")
              && (field != "" ==> |h| == |d| + 4 + |field| && h[|d| + 1..|d| + 4] == "in " && h[|d| + 4..] == field)
  {
    OrPlaceholder(degree, "Degree") + " " + (if field != "" then "in " + field else "")
  }

  /** An education entry as shown: every line has its placeholder, the years are
      shown exactly when there is a start year, the description only when given. */
  function EducationViewOf(e: Education): (v: EducationView)
    ensures var d := OrPlaceholder(e.degree, "Degree"); |v.heading| > |d| && v.heading[..|d|] == d
    ensures v.institution != "" && v.institution == OrPlaceholder(e.institution, "Institution")
    ensures v.range == "" <==> e.startYear == ""
    ensures v.description.Some? <==> e.description != ""
  {
    EducationView(DegreeHeading(e.degree, e.field), EducationRange(e.startYear, e.endYear),
                  OrPlaceholder(e.institution, "Institution"), Optional(e.description))
  }

  /** A job as shown: position and company with placeholders, the dates exactly when
      there is a start date, the description only when given. */
  function ExperienceViewOf(e: Experience): (v: ExperienceView)
    ensures v.position != "" && v.position == OrPlaceholder(e.position, "Position")
    ensures v.company != "" && v.company == OrPlaceholder(e.company, "Company")
    ensures v.range == "" <==> e.startDate == ""
    ensures v.description.Some? <==> e.description != ""
  {
    ExperienceView(OrPlaceholder(e.position, "Position"), OrPlaceholder(e.company, "Company"),
                   ExperienceRange(e.startDate, e.endDate, e.current), Optional(e.description))
  }

  /** The template layouts. */
  datatype Layout = Modern | Classic

  /** A skill as shown: dots in the modern layout, level text and bar in the classic
      one, both filled according to the rank of the level. */
  function SkillViewOf(s: Skill, layout: Layout): (v: SkillView)
    ensures v.name != "" && v.name == OrPlaceholder(s.name, "Skill")
    ensures v.SkillDots? <==> layout == Modern
    ensures v.SkillDots? ==> |v.dots| == 4 && forall i :: 0 <= i < 4 ==> (v.dots[i] <==> i < FilledDots(s.level))
    ensures v.SkillBar? ==> v.level == s.level && v.width == 25 * FilledDots(s.level)
  {
    match layout
    case Modern => SkillDots(OrPlaceholder(s.name, "Skill"), Dots(s.level))
    case Classic => SkillBar(OrPlaceholder(s.name, "Skill"), s.level, BarWidth(s.level))
  }

  /** A freshly added (blank) entry is shown entirely with placeholders. */
  lemma BlankEntriesShowPlaceholders(id: string, layout: Layout)
    ensures EducationViewOf(Education(id, "", "", "", "", "", "")) == EducationView("Degree ", "", "Institution", None)
    ensures ExperienceViewOf(Experience(id, "", "", "", "", false, "")) == ExperienceView("Position", "Company", "", None)
    ensures SkillViewOf(Skill(id, "", "Beginner"), layout)
              == if layout == Modern then SkillDots("Skill", [true, false, false, false]) else SkillBar("Skill", "Beginner", 25)
  {
    assert FilledDots("Beginner") == 1 by { LevelsFillDots(); }
    assert Dots("Beginner") == [true, false, false, false];
  }

  // ---------------------------------------------------------------------------
  // Sections and templates
  // ---------------------------------------------------------------------------

  datatype Section =
    | AboutSection(text: string)
    | EducationSection(entries: seq<EducationView>)
    | ExperienceSection(jobs: seq<ExperienceView>)
    | SkillsSection(skills: seq<SkillView>)

  datatype SectionKind = AboutKind | EducationKind | ExperienceKind | SkillsKind

  function KindOf(s: Section): SectionKind {
    match s
    case AboutSection(_) => AboutKind
    case EducationSection(_) => EducationKind
    case ExperienceSection(_) => ExperienceKind
    case SkillsSection(_) => SkillsKind
  }

  /** A section is rendered when its field is non-empty or its list has an entry. */
  predicate Present(cv: CvData, kind: SectionKind) {
    match kind
    case AboutKind => cv.aboutMe != ""
    case EducationKind => |cv.education| > 0
    case ExperienceKind => |cv.experience| > 0
    case SkillsKind => |cv.skills| > 0
  }

  /** The position of each section in a layout: the modern one puts education before
      experience, the classic one experience before education. */
  function Rank(layout: Layout, kind: SectionKind): nat {
    match kind
    case AboutKind => 0
    case EducationKind => if layout == Modern then 1 else 2
    case ExperienceKind => if layout == Modern then 2 else 1
    case SkillsKind => 3
  }

  function SectionFor(cv: CvData, kind: SectionKind, layout: Layout): Section {
    match kind
    case AboutKind => AboutSection(cv.aboutMe)
    case EducationKind => EducationSection(seq(|cv.education|, k requires 0 <= k < |cv.education| => EducationViewOf(cv.education[k])))
    case ExperienceKind => ExperienceSection(seq(|cv.experience|, k requires 0 <= k < |cv.experience| => ExperienceViewOf(cv.experience[k])))
    case SkillsKind => SkillsSection(seq(|cv.skills|, k requires 0 <= k < |cv.skills| => SkillViewOf(cv.skills[k], layout)))
  }

  function Block(cv: CvData, kind: SectionKind, layout: Layout): seq<Section> {
    if Present(cv, kind) then [SectionFor(cv, kind, layout)] else []
  }

  /** `ks` lists section kinds in strictly increasing position of the layout. */
  predicate InLayoutOrder(layout: Layout, ks: seq<SectionKind>) {
    forall i, j :: 0 <= i < j < |ks| ==> Rank(layout, ks[i]) < Rank(layout, ks[j])
  }

  /** The order in which a template writes its sections. */
  function LayoutOrder(layout: Layout): (order: seq<SectionKind>)
    ensures InLayoutOrder(layout, order)
  {
    match layout
    case Modern => [AboutKind, EducationKind, ExperienceKind, SkillsKind]
    case Classic => [AboutKind, ExperienceKind, EducationKind, SkillsKind]
  }

  /** The blocks of `order`, each written only when its data is present. */
  function SectionsIn(cv: CvData, order: seq<SectionKind>, layout: Layout): (ss: seq<Section>)
    ensures forall i :: 0 <= i < |ss| ==> ss[i] == SectionFor(cv, KindOf(ss[i]), layout)
  {
    if order == [] then [] else Block(cv, order[0], layout) + SectionsIn(cv, order[1..], layout)
  }

  /** The body of a template: one section per kind whose data is present. */
  function Sections(cv: CvData, layout: Layout): (ss: seq<Section>)
    ensures forall kind :: kind in Kinds(ss) <==> Present(cv, kind)
  {
    var order := LayoutOrder(layout);
    KindsOfSectionsIn(cv, order, layout);
    EveryKindInOrder(layout);
    SectionsIn(cv, order, layout)
  }

  /** Each template writes every kind of section (when present). */
  lemma EveryKindInOrder(layout: Layout)
    ensures forall kind :: kind in LayoutOrder(layout)
  {
    var order := LayoutOrder(layout);
    forall kind ensures kind in order {
      match kind
      case AboutKind => assert order[0] == kind;
      case EducationKind => assert order[1] == kind || order[2] == kind;
      case ExperienceKind => assert order[1] == kind || order[2] == kind;
      case SkillsKind => assert order[3] == kind;
    }
  }

  function Kinds(ss: seq<Section>): (ks: seq<SectionKind>)
    ensures |ks| == |ss| && forall i :: 0 <= i < |ss| ==> ks[i] == KindOf(ss[i])
  {
    seq(|ss|, i requires 0 <= i < |ss| => KindOf(ss[i]))
  }

  /** The kinds of the present sections of `order`, in order. */
  function PresentKinds(cv: CvData, order: seq<SectionKind>): (ks: seq<SectionKind>)
    ensures forall kind :: kind in ks <==> kind in order && Present(cv, kind)
  {
    if order == [] then []
    else (if Present(cv, order[0]) then [order[0]] else []) + PresentKinds(cv, order[1..])
  }

  lemma {:induction false} KindsOfSectionsIn(cv: CvData, order: seq<SectionKind>, layout: Layout)
    ensures Kinds(SectionsIn(cv, order, layout)) == PresentKinds(cv, order)
  {
    if order != [] {
      KindsOfSectionsIn(cv, order[1..], layout);
      KindsAppend(Block(cv, order[0], layout), SectionsIn(cv, order[1..], layout));
    }
  }

  lemma KindsAppend(a: seq<Section>, b: seq<Section>)
    ensures Kinds(a + b) == Kinds(a) + Kinds(b)
  {
    var l, r := Kinds(a + b), Kinds(a) + Kinds(b);
    forall k | 0 <= k < |l| ensures l[k] == r[k] {
      if k < |a| { assert (a + b)[k] == a[k]; } else { assert (a + b)[k] == b[k - |a|]; }
    }
  }

  /** Dropping absent kinds keeps the remaining ones in their relative order. */
  lemma {:induction false} PresentKindsOrdered(cv: CvData, order: seq<SectionKind>, layout: Layout)
    requires InLayoutOrder(layout, order)
    ensures InLayoutOrder(layout, PresentKinds(cv, order))
  {
    if order != [] {
      var tail := order[1..];
      TailInLayoutOrder(layout, order);
      PresentKindsOrdered(cv, tail, layout);
      var rest := PresentKinds(cv, tail);
      if Present(cv, order[0]) {
        forall k | 0 <= k < |rest| ensures Rank(layout, order[0]) < Rank(layout, rest[k]) {
          assert rest[k] in tail;
          var t :| 0 <= t < |tail| && tail[t] == rest[k];
          assert order[t + 1] == rest[k];
        }
        ConsInLayoutOrder(layout, order[0], rest);
      }
    }
  }

  lemma TailInLayoutOrder(layout: Layout, ks: seq<SectionKind>)
    requires InLayoutOrder(layout, ks) && ks != []
    ensures InLayoutOrder(layout, ks[1..])
  {
    var tail := ks[1..];
    forall i, j | 0 <= i < j < |tail| ensures Rank(layout, tail[i]) < Rank(layout, tail[j]) {
      assert tail[i] == ks[i + 1] && tail[j] == ks[j + 1];
    }
  }

  lemma ConsInLayoutOrder(layout: Layout, x: SectionKind, rest: seq<SectionKind>)
    requires InLayoutOrder(layout, rest)
    requires forall k :: 0 <= k < |rest| ==> Rank(layout, x) < Rank(layout, rest[k])
    ensures InLayoutOrder(layout, [x] + rest)
  {
    var ks := [x] + rest;
    forall i, j | 0 <= i < j < |ks| ensures Rank(layout, ks[i]) < Rank(layout, ks[j]) {
      assert ks[j] == rest[j - 1];
      if i > 0 { assert ks[i] == rest[i - 1]; }
    }
  }

  /** Every section appears exactly when its data is present, and the sections follow
      the layout's order. */
  lemma SectionsShownInOrder(cv: CvData, layout: Layout)
    ensures forall kind :: kind in Kinds(Sections(cv, layout)) <==> Present(cv, kind)
    ensures InLayoutOrder(layout, Kinds(Sections(cv, layout)))
  {
    KindsOfSectionsIn(cv, LayoutOrder(layout), layout);
    PresentKindsOrdered(cv, LayoutOrder(layout), layout);
  }

  /** With both education and experience filled in, the modern body lists education
      first and the classic body lists experience first. */
  lemma EducationAndExperienceOrder(cv: CvData)
    requires |cv.education| > 0 && |cv.experience| > 0
    ensures var m := Kinds(Sections(cv, Modern));
              exists i, j :: 0 <= i < j < |m| && m[i] == EducationKind && m[j] == ExperienceKind
    ensures var c := Kinds(Sections(cv, Classic));
              exists i, j :: 0 <= i < j < |c| && c[i] == ExperienceKind && c[j] == EducationKind
  {
    SectionsShownInOrder(cv, Modern);
    SectionsShownInOrder(cv, Classic);
    assert Present(cv, EducationKind) && Present(cv, ExperienceKind);
    ComesBefore(Modern, Kinds(Sections(cv, Modern)), EducationKind, ExperienceKind);
    ComesBefore(Classic, Kinds(Sections(cv, Classic)), ExperienceKind, EducationKind);
  }

  lemma ComesBefore(layout: Layout, ks: seq<SectionKind>, a: SectionKind, b: SectionKind)
    requires InLayoutOrder(layout, ks) && a in ks && b in ks
    requires Rank(layout, a) < Rank(layout, b)
    ensures exists i, j :: 0 <= i < j < |ks| && ks[i] == a && ks[j] == b
  {
    var i :| 0 <= i < |ks| && ks[i] == a;
    var j :| 0 <= j < |ks| && ks[j] == b;
    assert i < j;
  }

  /** `template = 'modern'` by default; `template === 'modern'` picks the modern layout
      and any other value the classic one. */
  function ChooseLayout(template: Option<string>): (l: Layout)
    ensures template.None? ==> l == Modern
    ensures template.Some? ==> (l == Modern <==> template.value == "modern")
  {
    if template.GetOr("modern") == "modern" then Modern else Classic
  }

  /** What the preview panel shows below its title bar. */
  datatype Preview =
    | Placeholder
    | Document(layout: Layout, title: string, sections: seq<Section>)

  function Render(cv: CvData, template: Option<string>): (p: Preview)
    ensures p.Placeholder? <==> cv == InitialCv()
    ensures p.Document? ==>
              && p.layout == ChooseLayout(template)
              && p.title == OrPlaceholder(cv.professionalTitle, "Professional Title")
              && p.sections == Sections(cv, p.layout)
  {
    if !HasAnyData(cv) then Placeholder
    else
      var layout := ChooseLayout(template);
      Document(layout, OrPlaceholder(cv.professionalTitle, "Professional Title"), Sections(cv, layout))
  }

  /** A CV whose only content is its title renders a document with an empty body. */
  lemma TitleOnlyHasEmptyBody(title: string, template: Option<string>)
    requires title != ""
    ensures Render(CvData("", title, [], [], []), template) == Document(ChooseLayout(template), title, [])
  {
    var layout := ChooseLayout(template);
    NothingPresentNoSections(CvData("", title, [], [], []), LayoutOrder(layout), layout);
  }

  lemma {:induction false} NothingPresentNoSections(cv: CvData, order: seq<SectionKind>, layout: Layout)
    requires forall kind :: !Present(cv, kind)
    ensures SectionsIn(cv, order, layout) == []
  {
    if order != [] {
      NothingPresentNoSections(cv, order[1..], layout);
    }
  }

  /** Adding an entry to any CV makes the preview show a document with that section. */
  lemma AddedEducationIsShown(cv: CvData, id: string, template: Option<string>)
    ensures var p := Render(AddEducation(cv, id), template);
              p.Document? && EducationKind in Kinds(p.sections)
  {
    var cv' := AddEducation(cv, id);
    SectionsShownInOrder(cv', ChooseLayout(template));
  }
}
